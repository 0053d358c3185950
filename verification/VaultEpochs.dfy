/**
 A row between two rotations: when its passes have settled it, and when Activepieces holds its token.
 */
module VaultEpochs {
  import opened Wrappers
  import opened Envelope
  import opened Vault
  import opened VaultFrames
  import opened VaultSecrets
  import opened VaultLease
  import opened VaultCallbacks
  import opened VaultLinks
  import opened VaultSync
  import opened VaultHandover

  // ------------------------------------------------------------------
  // The events that matter to a row
  // ------------------------------------------------------------------

  /** A rotation of the row commits. */
  predicate Rotation(w: World, e: Event, id: RowId) {
    e.Work? && e.op.Rotate? && e.op.commit && e.t in w.tasks && w.tasks[e.t].id == id && id in w.rows
  }

  /** The flag write of a pass that had read the row's link commits. */
  predicate LinkedFlag(w: World, e: Event, id: RowId) {
    && e.Work? && e.op == Flag(true) && e.t in w.tasks && w.tasks[e.t].id == id
    && Snap(w.tasks[e.t].pc).Some? && Snap(w.tasks[e.t].pc).value.ext.Some?
  }

  /** An upsert of the connection takes effect, whatever it reports. */
  predicate Delivery(w: World, e: Event, ext: ExtId) {
    && e.Work? && e.op.Push? && e.op.outcome != ApFailed && e.t in w.tasks
    && Snap(w.tasks[e.t].pc).Some? && Snap(w.tasks[e.t].pc).value.ext == Some(ext)
  }

  // ------------------------------------------------------------------
  // Settled rows
  // ------------------------------------------------------------------

  /** A rotation no linked pass has flagged since. */
  ghost predicate OpenRotation(ws: seq<World>, es: seq<Event>, n: nat, id: RowId)
    requires |ws| == |es| + 1 && n < |ws|
  {
    exists k :: 0 <= k < n && Rotation(ws[k], es[k], id) && NoFlagBetween(ws, es, k + 1, n, id)
  }

  ghost predicate NoFlagBetween(ws: seq<World>, es: seq<Event>, m: nat, n: nat, id: RowId)
    requires |ws| == |es| + 1 && n < |ws|
  {
    forall j :: m <= j < n ==> !LinkedFlag(ws[j], es[j], id)
  }

  lemma OpenExtends(ws: seq<World>, es: seq<Event>, n: nat, id: RowId)
    requires |ws| == |es| + 1 && 0 < n < |ws|
    requires !(Rotation(ws[n - 1], es[n - 1], id) && LinkedFlag(ws[n - 1], es[n - 1], id))
    ensures OpenRotation(ws, es, n, id) <==>
            Rotation(ws[n - 1], es[n - 1], id)
            || (OpenRotation(ws, es, n - 1, id) && !LinkedFlag(ws[n - 1], es[n - 1], id))
  {
    if Rotation(ws[n - 1], es[n - 1], id) {
      assert NoFlagBetween(ws, es, n - 1 + 1, n, id);
    }
    if OpenRotation(ws, es, n - 1, id) && !LinkedFlag(ws[n - 1], es[n - 1], id) {
      var k :| 0 <= k < n - 1 && Rotation(ws[k], es[k], id) && NoFlagBetween(ws, es, k + 1, n - 1, id);
      assert NoFlagBetween(ws, es, k + 1, n, id);
    }
    if OpenRotation(ws, es, n, id) && !Rotation(ws[n - 1], es[n - 1], id) {
      var k :| 0 <= k < n && Rotation(ws[k], es[k], id) && NoFlagBetween(ws, es, k + 1, n, id);
      assert NoFlagBetween(ws, es, k + 1, n - 1, id);
    }
  }

  /** One step, for a row that is there before and after. */
  ghost predicate MarkerStep(w: World, w': World, e: Event, id: RowId) {
    id in w.rows && id in w'.rows ==>
      (w'.rows[id].h.unsettled <==> Rotation(w, e, id) || (w.rows[id].h.unsettled && !LinkedFlag(w, e, id)))
  }

  lemma MarkerNext(w: World, w': World, e: Event, id: RowId)
    requires Next(w, w', e) && w.rows.Keys <= w.rowOwner.Keys
    ensures MarkerStep(w, w', e, id)
  {
    if id in w.rows && id in w'.rows {
      if e.Work? {
        if id == w.tasks[e.t].id { MarkerOwn(w, w', e.t, e.op); } else { WorkOtherRow(w, w', e.t, e.op, id); }
      } else if e.Front? {
        FrontRow(w, w', e.cb, e.cop, id);
      } else {
        OtherRow(w, w', e, id);
      }
    }
  }

  lemma MarkerOwn(w: World, w': World, t: TaskId, op: TaskOp)
    requires TaskAt(w, t) && TaskNext(w, w', t, op) && w.tasks[t].id in w.rows
    ensures MarkerStep(w, w', Work(t, op), w.tasks[t].id)
  {
    if op.Rotate? { MarkerRotate(w, w', t, op.rand, op.commit); }
    else if op.Flag? { MarkerFlag(w, w', t, op.commit); }
    else { WorkOwnRow(w, w', t, op); }
  }

  lemma MarkerRotate(w: World, w': World, t: TaskId, f: Fresh, commit: bool)
    requires RotateStep(w, w', t, f, commit)
    ensures MarkerStep(w, w', Work(t, Rotate(f, commit)), w.tasks[t].id)
  {
  }

  lemma MarkerFlag(w: World, w': World, t: TaskId, commit: bool)
    requires FlagStep(w, w', t, commit)
    ensures MarkerStep(w, w', Work(t, Flag(commit)), w.tasks[t].id)
  {
  }

  /** A new row is settled, and nothing has happened to it. */
  lemma MarkerNew(w: World, w': World, e: Event, id: RowId)
    requires Next(w, w', e) && w.rows.Keys <= w.rowOwner.Keys && id !in w.rows && id in w'.rows
    ensures id !in w.rowOwner && !w'.rows[id].h.unsettled && !Rotation(w, e, id)
  {
    if e.Work? { WorkFrame(w, w', e.t, e.op); }
    else if e.Front? { FrontRow(w, w', e.cb, e.cop, id); }
    else { OtherFrame(w, w', e); }
  }

  lemma OwnersGrow(w: World, w': World, e: Event)
    requires Next(w, w', e) && w.rows.Keys <= w.rowOwner.Keys
    ensures w.rowOwner.Keys <= w'.rowOwner.Keys && w'.rows.Keys <= w'.rowOwner.Keys
  {
    if e.Work? { WorkFrame(w, w', e.t, e.op); }
    else if e.Front? { FrontOwners(w, w', e.cb, e.cop); }
    else { OtherFrame(w, w', e); }
  }

  /**
   In every run, a row is unsettled exactly when some rotation of it has committed and no pass that
   had read its link has committed its flag write since.  A crash between the two, an aborted flag
   write and a pass that read the row unlinked all leave it so, pending or not.
   */
  lemma {:induction false} UnsettledIff(ws: seq<World>, es: seq<Event>, n: nat, id: RowId)
    requires IsRun(ws, es) && n < |ws|
    ensures ws[n].rows.Keys <= ws[n].rowOwner.Keys
    ensures id in ws[n].rows ==> (ws[n].rows[id].h.unsettled <==> OpenRotation(ws, es, n, id))
    ensures id !in ws[n].rowOwner ==> !OpenRotation(ws, es, n, id)
  {
    if n > 0 {
      UnsettledIff(ws, es, n - 1, id);
      MarkerExtends(ws, es, n, id);
      OpenExtends(ws, es, n, id);
    }
  }

  lemma MarkerExtends(ws: seq<World>, es: seq<Event>, n: nat, id: RowId)
    requires IsRun(ws, es) && 0 < n < |ws| && ws[n - 1].rows.Keys <= ws[n - 1].rowOwner.Keys
    ensures ws[n - 1].rowOwner.Keys <= ws[n].rowOwner.Keys && ws[n].rows.Keys <= ws[n].rowOwner.Keys
    ensures MarkerStep(ws[n - 1], ws[n], es[n - 1], id)
    ensures id !in ws[n - 1].rows && id in ws[n].rows ==>
              id !in ws[n - 1].rowOwner && !ws[n].rows[id].h.unsettled && !Rotation(ws[n - 1], es[n - 1], id)
  {
    var w, w', e := ws[n - 1], ws[n], es[n - 1];
    OwnersGrow(w, w', e);
    MarkerNext(w, w', e, id);
    if id !in w.rows && id in w'.rows { MarkerNew(w, w', e, id); }
  }

  /** In events alone: what a linked, not pending row promises unless a rotation of it is open. */
  lemma NotPendingNotOpen(ws: seq<World>, es: seq<Event>, n: nat, id: RowId)
    requires TimelyRun(ws, es) && n < |ws| && id in ws[n].rows && !OpenRotation(ws, es, n, id)
    requires ws[n].rows[id].ext.Some? && !ws[n].rows[id].syncPending
    ensures var r := ws[n].rows[id];
            && OpenAccess(ws[n].mk, id, r).Ok?
            && Holds(ws[n], r.ext.value, OpenAccess(ws[n].mk, id, r).value)
  {
    UnsettledIff(ws, es, n, id);
    NotPendingMeansSynced(ws, es, n, id);
  }

  // ------------------------------------------------------------------
  // What Activepieces holds between two rotations
  // ------------------------------------------------------------------

  /** The callback has its connection, and has finished or is about to. */
  predicate Joined(w: World, cb: CallbackId, id: RowId, ext: ExtId) {
    && cb in w.callbacks && ext in w.extOwner && w.extOwner[ext] == cb
    && (w.callbacks[cb].pc == Linked(id, ext) || w.callbacks[cb].pc == Completed(id, ext))
  }

  /** Without a rotation, a step makes the connection hold the row's token only by delivering it. */
  ghost predicate SyncStep(w: World, w': World, e: Event, id: RowId, ext: ExtId) {
    && id in w.rows && id in w'.rows && Token(w'.rows[id]) == Token(w.rows[id])
    && (Holds(w', ext, Token(w'.rows[id])) <==> Holds(w, ext, Token(w.rows[id])) || Delivery(w, e, ext))
  }

  lemma TokenKept(w: World, w': World, e: Event, id: RowId)
    requires Next(w, w', e) && w.rows.Keys <= w.rowOwner.Keys && id in w.rows && id in w'.rows && !Rotation(w, e, id)
    ensures Token(w'.rows[id]) == Token(w.rows[id])
  {
    if e.Work? {
      if id == w.tasks[e.t].id { WorkOwnRow(w, w', e.t, e.op); } else { WorkOtherRow(w, w', e.t, e.op, id); }
    } else if e.Front? {
      FrontRow(w, w', e.cb, e.cop, id);
    } else {
      OtherRow(w, w', e, id);
    }
  }

  /** What a live task delivers is the token its row has. */
  lemma Delivers(w: World, w': World, t: TaskId, outcome: ApOutcome, cb: CallbackId, id: RowId, ext: ExtId)
    requires Base(w) && SyncInv(w) && PushStep(w, w', t, outcome) && Joined(w, cb, id, ext) && id in w.rows
    requires Delivery(w, Work(t, Push(outcome)), ext)
    ensures Holds(w', ext, Token(w.rows[id]))
  {
    var k := w.tasks[t];
    ReaderOfLink(w, t, cb, ext);
    assert TaskSync(w, k) && ReadsCurrent(w, k) && TaskSound(w, k);
    if k.pc.ApLoaded? {
      assert RowOpens(w.mk, id, w.rows[id]);
      SameOpens(w.mk, id, w.rows[id], k.pc.row);
      OpenedToken(w.mk, id, k.pc.row);
    }
  }

  /** No other worker step changes the connection. */
  lemma Undelivered(w: World, w': World, t: TaskId, op: TaskOp, ext: ExtId)
    requires TaskAt(w, t) && TaskNext(w, w', t, op) && !Delivery(w, Work(t, op), ext)
    ensures ext in w'.conns <==> ext in w.conns
    ensures ext in w.conns ==> w'.conns[ext] == w.conns[ext]
  {
  }

  lemma WorkTokenKept(w: World, w': World, t: TaskId, op: TaskOp, id: RowId)
    requires TaskAt(w, t) && TaskNext(w, w', t, op) && w.rows.Keys <= w.rowOwner.Keys && id in w.rows
    requires !Rotation(w, Work(t, op), id)
    ensures id in w'.rows && Token(w'.rows[id]) == Token(w.rows[id])
  {
    WorkFrame(w, w', t, op);
    TokenKept(w, w', Work(t, op), id);
  }

  lemma SyncStepWork(w: World, w': World, t: TaskId, op: TaskOp, cb: CallbackId, id: RowId, ext: ExtId)
    requires Base(w) && SyncInv(w) && TaskAt(w, t) && TaskNext(w, w', t, op) && Joined(w, cb, id, ext)
    requires !Rotation(w, Work(t, op), id)
    ensures SyncStep(w, w', Work(t, op), id, ext)
  {
    JoinedRow(w, cb, id, ext);
    WorkTokenKept(w, w', t, op, id);
    if Delivery(w, Work(t, op), ext) { Delivers(w, w', t, op.outcome, cb, id, ext); }
    SyncStepConns(w, w', t, op, id, ext);
  }

  lemma SyncStepConns(w: World, w': World, t: TaskId, op: TaskOp, id: RowId, ext: ExtId)
    requires TaskAt(w, t) && TaskNext(w, w', t, op) && id in w.rows
    requires Delivery(w, Work(t, op), ext) ==> Holds(w', ext, Token(w.rows[id]))
    ensures Holds(w', ext, Token(w.rows[id])) <==> Holds(w, ext, Token(w.rows[id])) || Delivery(w, Work(t, op), ext)
  {
    if !Delivery(w, Work(t, op), ext) { Undelivered(w, w', t, op, ext); }
  }

  lemma JoinedRow(w: World, cb: CallbackId, id: RowId, ext: ExtId)
    requires OwnerInv(w) && Joined(w, cb, id, ext)
    ensures id in w.rows && w.rows.Keys <= w.rowOwner.Keys
  {
    assert Settled(w, cb, w.callbacks[cb].pc);
  }

  /** Nor does any callback step: the owner has finished or is finishing, and the others own others. */
  lemma FrontLeaves(w: World, w': World, c: CallbackId, op: CallbackOp, cb: CallbackId, id: RowId, ext: ExtId)
    requires OwnerInv(w) && CallbackAt(w, c) && CallbackNext(w, w', c, op)
    requires Joined(w, cb, id, ext)
    ensures ext in w'.conns <==> ext in w.conns
    ensures ext in w.conns ==> w'.conns[ext] == w.conns[ext]
  {
    assert Settled(w, c, w.callbacks[c].pc);
    ConnsLeft(w, w', c, op, ext);
  }

  lemma ConnsLeft(w: World, w': World, c: CallbackId, op: CallbackOp, ext: ExtId)
    requires CallbackAt(w, c) && CallbackNext(w, w', c, op) && ext in w.extOwner
    requires !(w.callbacks[c].pc.Undoing? && w.callbacks[c].pc.ext == ext)
    ensures ext in w'.conns <==> ext in w.conns
    ensures ext in w.conns ==> w'.conns[ext] == w.conns[ext]
  {
  }

  lemma SyncStepElse(w: World, w': World, e: Event, cb: CallbackId, id: RowId, ext: ExtId)
    requires OwnerInv(w) && Next(w, w', e) && !e.Work? && Joined(w, cb, id, ext) && id in w.rows && id in w'.rows
    ensures SyncStep(w, w', e, id, ext)
  {
    assert w.rows.Keys <= w.rowOwner.Keys;
    assert Token(w'.rows[id]) == Token(w.rows[id]) by { TokenKept(w, w', e, id); }
    if e.Front? { FrontLeaves(w, w', e.cb, e.cop, cb, id, ext); } else { OtherFrame(w, w', e); }
  }

  lemma SyncStepNext(w: World, w': World, e: Event, cb: CallbackId, id: RowId, ext: ExtId)
    requires Base(w) && SyncInv(w) && Next(w, w', e) && Joined(w, cb, id, ext) && id in w'.rows
    requires !Rotation(w, e, id)
    ensures SyncStep(w, w', e, id, ext)
  {
    if e.Work? {
      SyncStepWork(w, w', e.t, e.op, cb, id, ext);
    } else {
      assert id in w.rows by { JoinedRow(w, cb, id, ext); }
      SyncStepElse(w, w', e, cb, id, ext);
    }
  }

  /** Past its create call, a callback that is joined now was joined before. */
  lemma JoinedBefore(w: World, w': World, e: Event, cb: CallbackId, id: RowId, ext: ExtId)
    requires CallbackInv(w) && Next(w, w', e) && Joined(w', cb, id, ext)
    requires cb in w.callbacks && ext in w.extOwner && w.extOwner[ext] == cb && PastLink(w.callbacks[cb].pc)
    ensures Joined(w, cb, id, ext)
  {
    if e.Work? { WorkFrame(w, w', e.t, e.op); }
    else if e.Front? && e.cb == cb { OwnStep(w, w', cb, e.cop); }
    else if e.Front? { FrontFrame(w, w', e.cb, e.cop); }
    else { ArriveOnly(w, w', e); }
  }

  /** Some upsert of the connection takes effect between the two worlds. */
  ghost predicate DeliveredBetween(ws: seq<World>, es: seq<Event>, s: nat, n: nat, ext: ExtId)
    requires |ws| == |es| + 1 && n < |ws|
  {
    exists j :: s <= j < n && Delivery(ws[j], es[j], ext)
  }

  lemma DeliveredExtends(ws: seq<World>, es: seq<Event>, s: nat, n: nat, ext: ExtId)
    requires |ws| == |es| + 1 && s < n < |ws|
    ensures DeliveredBetween(ws, es, s, n, ext) <==>
            DeliveredBetween(ws, es, s, n - 1, ext) || Delivery(ws[n - 1], es[n - 1], ext)
  {
  }

  ghost predicate NoRotationBetween(ws: seq<World>, es: seq<Event>, s: nat, n: nat, id: RowId)
    requires |ws| == |es| + 1 && n < |ws|
  {
    forall j :: s <= j < n ==> !Rotation(ws[j], es[j], id)
  }

  /** What one step contributes, for a callback past its create call. */
  ghost predicate EpochStep(w: World, w': World, e: Event, cb: CallbackId, id: RowId, ext: ExtId) {
    PastCreate(w, cb, ext) && Joined(w', cb, id, ext) && !Rotation(w, e, id) ==>
      Joined(w, cb, id, ext) && SyncStep(w, w', e, id, ext)
  }

  predicate PastCreate(w: World, cb: CallbackId, ext: ExtId) {
    cb in w.callbacks && ext in w.extOwner && w.extOwner[ext] == cb && PastLink(w.callbacks[cb].pc)
  }

  lemma EpochNext(w: World, w': World, e: Event, cb: CallbackId, id: RowId, ext: ExtId)
    requires Base(w) && SyncInv(w) && Next(w, w', e) && OwnerInv(w')
    ensures EpochStep(w, w', e, cb, id, ext)
  {
    if PastCreate(w, cb, ext) && Joined(w', cb, id, ext) && !Rotation(w, e, id) {
      assert Joined(w, cb, id, ext) by { JoinedBefore(w, w', e, cb, id, ext); }
      assert id in w'.rows by { JoinedRow(w', cb, id, ext); }
      SyncStepNext(w, w', e, cb, id, ext);
    }
  }

  lemma RunEpoch(ws: seq<World>, es: seq<Event>, k: nat, cb: CallbackId, id: RowId, ext: ExtId)
    requires TimelyRun(ws, es) && k < |es|
    ensures EpochStep(ws[k], ws[k + 1], es[k], cb, id, ext)
  {
    RunBase(ws, es, k);
    RunSync(ws, es, k);
    assert OwnerInv(ws[k + 1]) by { RunLinks(ws, es, k + 1); }
    EpochNext(ws[k], ws[k + 1], es[k], cb, id, ext);
  }

  /** The same over a stretch of worlds joined by such steps. */
  lemma {:induction false} InSyncBySteps(ws: seq<World>, es: seq<Event>, s: nat, n: nat,
                                         cb: CallbackId, id: RowId, ext: ExtId)
    requires |ws| == |es| + 1 && s <= n < |ws|
    requires forall k :: s <= k < n ==> EpochStep(ws[k], ws[k + 1], es[k], cb, id, ext) && PastCreate(ws[k], cb, ext)
    requires Joined(ws[n], cb, id, ext) && id in ws[n].rows && NoRotationBetween(ws, es, s, n, id)
    ensures Joined(ws[s], cb, id, ext) && id in ws[s].rows && Token(ws[n].rows[id]) == Token(ws[s].rows[id])
    ensures Holds(ws[n], ext, Token(ws[n].rows[id])) <==>
            Holds(ws[s], ext, Token(ws[s].rows[id])) || DeliveredBetween(ws, es, s, n, ext)
    decreases n
  {
    if s < n {
      assert EpochStep(ws[n - 1], ws[n - 1 + 1], es[n - 1], cb, id, ext);
      assert NoRotationBetween(ws, es, s, n - 1, id);
      InSyncBySteps(ws, es, s, n - 1, cb, id, ext);
      DeliveredExtends(ws, es, s, n, ext);
    }
  }

  /**
   In every timely run, as long as a row is not rotated: its connection holds the row's token if and
   only if it did so at the start, or an upsert has taken effect since.  With the start after a
   rotation, or after the create call, this is the exact condition at every moment, after crashes and
   aborted writes too, and whatever the flag says.
   */
  lemma InSyncSinceIff(ws: seq<World>, es: seq<Event>, m: nat, s: nat, n: nat, cb: CallbackId, id: RowId, ext: ExtId)
    requires TimelyRun(ws, es) && m < s <= n < |ws| && es[m] == Front(cb, Link(ext, ApOk))
    requires Joined(ws[n], cb, id, ext) && NoRotationBetween(ws, es, s, n, id)
    ensures Joined(ws[s], cb, id, ext) && id in ws[s].rows && id in ws[n].rows
    ensures Token(ws[n].rows[id]) == Token(ws[s].rows[id])
    ensures Holds(ws[n], ext, Token(ws[n].rows[id])) <==>
            Holds(ws[s], ext, Token(ws[s].rows[id])) || DeliveredBetween(ws, es, s, n, ext)
  {
    assert id in ws[n].rows by {
      RunLinks(ws, es, n);
      JoinedRow(ws[n], cb, id, ext);
    }
    forall k | s <= k < n ensures EpochStep(ws[k], ws[k + 1], es[k], cb, id, ext) && PastCreate(ws[k], cb, ext) {
      RunEpoch(ws, es, k, cb, id, ext);
      UntoldSinceLink(ws, es, m, k, cb, ext);
    }
    InSyncBySteps(ws, es, s, n, cb, id, ext);
  }
}
