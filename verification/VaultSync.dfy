/**
 The link to Activepieces: when `ap_sync_pending` is false, Activepieces holds the row's token.

 The claim is about linked rows whose last rotation was followed by the flag write of a pass that
 had read the link (`unsettled` is false); in between, a rotation is committed before its push.
 */
module VaultSync {
  import opened Wrappers
  import opened Envelope
  import opened Vault
  import opened VaultFrames
  import opened VaultSecrets
  import opened VaultLease
  import opened VaultCallbacks
  import opened VaultLinks

  /** The access token inside a row's access ciphertext. */
  function Token(r: Row): Bytes { r.access.ciphertext.plain }

  predicate Holds(w: World, ext: ExtId, token: Bytes) { ext in w.conns && w.conns[ext] == token }

  predicate RowSync(w: World, r: Row) {
    && (r.ext.Some? && !r.h.unsettled && !r.syncPending ==> Holds(w, r.ext.value, Token(r)))
    && (r.ext.None? ==> !r.syncPending)
  }

  predicate TaskSync(w: World, k: Task) {
    k.Live() ==>
      match k.pc
      case Committed(_, access) => k.id in w.rows ==> w.rows[k.id].h.unsettled && Token(w.rows[k.id]) == access
      case Pushed(was, synced) =>
        && (was.ext.None? ==> synced)
        && (k.id in w.rows ==>
              && w.rows[k.id].h.unsettled
              && (was.ext.Some? && synced ==> Holds(w, was.ext.value, Token(w.rows[k.id]))))
      case ApLoaded(was) => was.ext.Some?
      case ApPushed(was) => was.ext.Some? && (k.id in w.rows ==> Holds(w, was.ext.value, Token(w.rows[k.id])))
      case _ => true
  }

  /** Before the link is written, Activepieces holds what the callback sealed into the row. */
  predicate CallbackSync(w: World, pc: CallbackPc) {
    match pc
    case Persisted(id, access) => id in w.rows && !w.rows[id].h.unsettled ==> Token(w.rows[id]) == access
    case Linked(id, ext) => id in w.rows && !w.rows[id].h.unsettled ==> Holds(w, ext, Token(w.rows[id]))
    case _ => true
  }

  ghost predicate SyncInv(w: World) {
    && (forall id :: id in w.rows ==> RowSync(w, w.rows[id]))
    && (forall t :: t in w.tasks ==> TaskSync(w, w.tasks[t]))
    && (forall c :: c in w.callbacks ==> CallbackSync(w, w.callbacks[c].pc))
  }

  /** What the sync argument takes from the other invariants. */
  ghost predicate Base(w: World) { LeaseInv(w) && LinksInv(w) }

  // ------------------------------------------------------------------
  // Worker steps
  // ------------------------------------------------------------------

  /** The only connection a worker step writes is the one its task has read. */
  ghost predicate ConnsDelta(w: World, w': World, k: Task) {
    forall x :: x in w.conns && (x in w'.conns ==> w'.conns[x] != w.conns[x])
      ==> Snap(k.pc).Some? && Snap(k.pc).value.ext == Some(x)
  }

  lemma WorkConnsDelta(w: World, w': World, t: TaskId, op: TaskOp)
    requires TaskAt(w, t) && TaskNext(w, w', t, op)
    ensures ConnsDelta(w, w', w.tasks[t])
  {
  }

  /** So the connections of other rows keep their value. */
  lemma ConnOfOtherRow(w: World, w': World, k: Task, id: RowId)
    requires OwnerInv(w) && SnapLinked(w, k) && ConnsDelta(w, w', k)
    requires id in w.rows && id != k.id && w.rows[id].ext.Some?
    ensures var x := w.rows[id].ext.value; forall v :: Holds(w, x, v) ==> Holds(w', x, v)
  {
    var x := w.rows[id].ext.value;
    if x in w.conns && (x in w'.conns ==> w'.conns[x] != w.conns[x]) {
      SnapRow(w, k);
      OneRowPerLink(w, id, k.id);
    }
  }

  lemma RowSyncOther(w: World, w': World, k: Task, id: RowId)
    requires OwnerInv(w) && SnapLinked(w, k) && ConnsDelta(w, w', k)
    requires id in w.rows && id != k.id && RowSync(w, w.rows[id])
    ensures RowSync(w', w.rows[id])
  {
    if w.rows[id].ext.Some? { ConnOfOtherRow(w, w', k, id); }
  }

  /** What an own step needs to know about its task and row. */
  ghost predicate OwnReady(w: World, t: TaskId) {
    && TaskAt(w, t) && TaskSync(w, w.tasks[t]) && TaskSound(w, w.tasks[t]) && ReadsCurrent(w, w.tasks[t])
    && (w.tasks[t].id in w.rows ==> RowSync(w, w.rows[w.tasks[t].id]))
    && (w.tasks[t].id in w.rows && Snap(w.tasks[t].pc).Some? && Snap(w.tasks[t].pc).value.ext.Some? ==>
          w.rows[w.tasks[t].id].ext == Snap(w.tasks[t].pc).value.ext)
  }

  ghost predicate OwnDone(w: World, t: TaskId) {
    && t in w.tasks && TaskSync(w, w.tasks[t])
    && (w.tasks[t].id in w.rows ==> RowSync(w, w.rows[w.tasks[t].id]))
  }

  lemma OwnRotate(w: World, w': World, t: TaskId, f: Fresh, commit: bool)
    requires OwnReady(w, t) && RotateStep(w, w', t, f, commit)
    ensures OwnDone(w', t)
  {
  }

  lemma OwnPush(w: World, w': World, t: TaskId, outcome: ApOutcome)
    requires OwnReady(w, t) && PushStep(w, w', t, outcome)
    ensures OwnDone(w', t)
  {
    var k := w.tasks[t];
    if k.pc.ApLoaded? && OpenAccess(w.mk, k.id, k.pc.row).Ok? {
      assert OpenAccess(w.mk, k.id, k.pc.row).value == Token(k.pc.row);
    }
  }

  lemma OwnFlag(w: World, w': World, t: TaskId, commit: bool)
    requires OwnReady(w, t) && FlagStep(w, w', t, commit)
    ensures OwnDone(w', t)
  {
  }

  lemma OwnLoad(w: World, w': World, t: TaskId)
    requires OwnReady(w, t) && LoadStep(w, w', t)
    requires w.tasks[t].id in w.rows && w.rows[w.tasks[t].id].ext.None? ==> !w.rows[w.tasks[t].id].syncPending
    ensures OwnDone(w', t)
  {
  }

  predicate Quiet(op: TaskOp) { !op.Rotate? && !op.Push? && !op.Flag? && !op.Load? }

  lemma OwnQuiet(w: World, w': World, t: TaskId, op: TaskOp)
    requires OwnReady(w, t) && TaskNext(w, w', t, op) && Quiet(op)
    ensures OwnDone(w', t)
  {
  }

  lemma OwnWork(w: World, w': World, t: TaskId, op: TaskOp)
    requires OwnReady(w, t) && TaskNext(w, w', t, op)
    ensures OwnDone(w', t)
  {
    match op
    case Rotate(f, commit) => OwnRotate(w, w', t, f, commit);
    case Push(outcome) => OwnPush(w, w', t, outcome);
    case Flag(commit) => OwnFlag(w, w', t, commit);
    case Load => OwnLoad(w, w', t);
    case _ => OwnQuiet(w, w', t, op);
  }

  lemma ReadyOf(w: World, t: TaskId)
    requires Base(w) && SyncInv(w) && TaskAt(w, t)
    ensures OwnReady(w, t)
  {
    var k := w.tasks[t];
    if Snap(k.pc).Some? && Snap(k.pc).value.ext.Some? { SnapRow(w, k); }
  }

  /** Another live task works on another row, through another connection. */
  lemma TaskSyncOther(w: World, w': World, t: TaskId, op: TaskOp, u: TaskId)
    requires Base(w) && SyncInv(w) && TaskAt(w, t) && TaskNext(w, w', t, op)
    requires u in w.tasks && u != t
    ensures u in w'.tasks && TaskSync(w', w'.tasks[u])
  {
    WorkFrame(w, w', t, op);
    var k := w.tasks[u];
    assert w'.tasks[u] == k && TaskSync(w, k);
    if k.Live() {
      if k.id in w.rows { WorkOtherRow(w, w', t, op, k.id); }
      if Snap(k.pc).Some? && Snap(k.pc).value.ext.Some? {
        WorkConnsDelta(w, w', t, op);
        SnapRow(w, k);
        ConnOfOtherRow(w, w', w.tasks[t], k.id);
      }
      TaskSyncKept(w, w', k);
    }
  }

  /** What a task knows survives when its row keeps its secrets and flags and its connection its value. */
  lemma TaskSyncKept(w: World, w': World, k: Task)
    requires TaskSync(w, k) && k.Live()
    requires k.id in w'.rows ==>
               k.id in w.rows && SameSecrets(w.rows[k.id], w'.rows[k.id]) && SameFlags(w.rows[k.id], w'.rows[k.id])
    requires Snap(k.pc).Some? && Snap(k.pc).value.ext.Some? ==>
               forall v :: Holds(w, Snap(k.pc).value.ext.value, v) ==> Holds(w', Snap(k.pc).value.ext.value, v)
    ensures TaskSync(w', k)
  {
  }

  /** Unlinked rows: a step that leaves one settled has not changed its token. */
  ghost predicate UnlinkedKept(w: World, w': World) {
    forall id :: id in w.rows && w.rows[id].ext.None? ==>
      && id in w'.rows
      && (!w'.rows[id].h.unsettled ==> !w.rows[id].h.unsettled && Token(w'.rows[id]) == Token(w.rows[id]))
  }

  /** A callback that has not finished owns an unlinked row and a connection no task writes. */
  lemma CallbackSyncWork(w: World, w': World, k: Task, c: CallbackId)
    requires OwnerInv(w) && SnapLinked(w, k) && ConnsDelta(w, w', k) && UnlinkedKept(w, w')
    requires c in w.callbacks && CallbackSync(w, w.callbacks[c].pc)
    ensures CallbackSync(w', w.callbacks[c].pc)
  {
    var pc := w.callbacks[c].pc;
    assert Settled(w, c, pc);
    if pc.Linked? { UnfinishedConn(w, w', k, c); }
    if pc.Persisted? || pc.Linked? { CallbackSyncKept(w, w', pc); }
  }

  lemma CallbackSyncKept(w: World, w': World, pc: CallbackPc)
    requires CallbackSync(w, pc) && (pc.Persisted? || pc.Linked?)
    requires pc.id in w'.rows && !w'.rows[pc.id].h.unsettled ==>
               pc.id in w.rows && !w.rows[pc.id].h.unsettled && Token(w'.rows[pc.id]) == Token(w.rows[pc.id])
    requires pc.Linked? ==> forall v :: Holds(w, pc.ext, v) ==> Holds(w', pc.ext, v)
    ensures CallbackSync(w', pc)
  {
  }

  lemma UnfinishedConn(w: World, w': World, k: Task, c: CallbackId)
    requires OwnerInv(w) && SnapLinked(w, k) && ConnsDelta(w, w', k)
    requires c in w.callbacks && w.callbacks[c].pc.Linked?
    ensures var x := w.callbacks[c].pc.ext; forall v :: Holds(w, x, v) ==> Holds(w', x, v)
  {
    var x := w.callbacks[c].pc.ext;
    assert Settled(w, c, w.callbacks[c].pc);
    if x in w.conns && (x in w'.conns ==> w'.conns[x] != w.conns[x]) { SnapRow(w, k); }
  }

  lemma UnlinkedWork(w: World, w': World, t: TaskId, op: TaskOp)
    requires OwnerInv(w) && TaskAt(w, t) && SnapLinked(w, w.tasks[t]) && TaskNext(w, w', t, op)
    ensures UnlinkedKept(w, w')
  {
    forall id | id in w.rows && w.rows[id].ext.None?
      ensures id in w'.rows
      ensures !w'.rows[id].h.unsettled ==> !w.rows[id].h.unsettled && Token(w'.rows[id]) == Token(w.rows[id])
    {
      if id != w.tasks[t].id { WorkOtherRow(w, w', t, op, id); } else { UnlinkedOwnRow(w, w', t, op); }
    }
  }

  lemma UnlinkedOwnRow(w: World, w': World, t: TaskId, op: TaskOp)
    requires OwnerInv(w) && TaskAt(w, t) && SnapLinked(w, w.tasks[t]) && TaskNext(w, w', t, op)
    requires w.tasks[t].id in w.rows && w.rows[w.tasks[t].id].ext.None?
    ensures var id := w.tasks[t].id;
            && id in w'.rows
            && (!w'.rows[id].h.unsettled ==> !w.rows[id].h.unsettled && Token(w'.rows[id]) == Token(w.rows[id]))
  {
    WorkOwnRow(w, w', t, op);
    if Snap(w.tasks[t].pc).Some? && Snap(w.tasks[t].pc).value.ext.Some? { SnapRow(w, w.tasks[t]); }
  }

  lemma SyncWork(w: World, w': World, t: TaskId, op: TaskOp)
    requires Base(w) && SyncInv(w) && TaskAt(w, t) && TaskNext(w, w', t, op)
    ensures SyncInv(w')
  {
    RowsSyncWork(w, w', t, op);
    TasksSyncWork(w, w', t, op);
    WorkFrame(w, w', t, op);
    WorkConnsDelta(w, w', t, op);
    UnlinkedWork(w, w', t, op);
    forall c | c in w'.callbacks ensures CallbackSync(w', w'.callbacks[c].pc) {
      CallbackSyncWork(w, w', w.tasks[t], c);
    }
  }

  lemma RowsSyncWork(w: World, w': World, t: TaskId, op: TaskOp)
    requires Base(w) && SyncInv(w) && TaskAt(w, t) && TaskNext(w, w', t, op)
    ensures forall id :: id in w'.rows ==> RowSync(w', w'.rows[id])
  {
    WorkFrame(w, w', t, op);
    WorkTask(w, w', t, op);
    ReadyOf(w, t);
    OwnWork(w, w', t, op);
    WorkConnsDelta(w, w', t, op);
    forall id | id in w'.rows ensures RowSync(w', w'.rows[id]) {
      if id != w.tasks[t].id {
        WorkOtherRow(w, w', t, op, id);
        RowSyncOther(w, w', w.tasks[t], id);
      }
    }
  }

  lemma TasksSyncWork(w: World, w': World, t: TaskId, op: TaskOp)
    requires Base(w) && SyncInv(w) && TaskAt(w, t) && TaskNext(w, w', t, op)
    ensures forall u :: u in w'.tasks ==> TaskSync(w', w'.tasks[u])
  {
    WorkFrame(w, w', t, op);
    ReadyOf(w, t);
    OwnWork(w, w', t, op);
    forall u | u in w'.tasks ensures TaskSync(w', w'.tasks[u]) {
      if u != t { TaskSyncOther(w, w', t, op, u); }
    }
  }

  // ------------------------------------------------------------------
  // Callback steps
  // ------------------------------------------------------------------

  /** A callback step touches no connection that already has an owner, except one it is undoing. */
  ghost predicate ConnsKeptBut(w: World, w': World, pc: CallbackPc) {
    forall x, v :: x in w.extOwner && !(pc.Undoing? && pc.ext == x) && Holds(w, x, v) ==> Holds(w', x, v)
  }

  lemma FrontConns(w: World, w': World, cb: CallbackId, op: CallbackOp)
    requires CallbackAt(w, cb) && CallbackNext(w, w', cb, op)
    ensures ConnsKeptBut(w, w', w.callbacks[cb].pc)
    ensures w.callbacks[cb].pc.Completed? ==> cb in w'.callbacks && w'.callbacks[cb].pc == w.callbacks[cb].pc
  {
  }

  /** Rows that were there keep their secrets and flags; only new ids bring new rows. */
  ghost predicate RowsKept(w: World, w': World) {
    forall id :: id in w'.rows && id in w.rowOwner ==>
      id in w.rows && SameSecrets(w.rows[id], w'.rows[id]) && SameFlags(w.rows[id], w'.rows[id])
  }

  lemma FrontRowsKept(w: World, w': World, cb: CallbackId, op: CallbackOp)
    requires CallbackAt(w, cb) && CallbackNext(w, w', cb, op) && w.rows.Keys <= w.rowOwner.Keys
    ensures RowsKept(w, w')
  {
    forall id | id in w'.rows && id in w.rowOwner
      ensures id in w.rows && SameSecrets(w.rows[id], w'.rows[id]) && SameFlags(w.rows[id], w'.rows[id])
    {
      FrontRow(w, w', cb, op, id);
    }
  }

  lemma RowSyncKept(w: World, w': World, id: RowId, pc: CallbackPc)
    requires OwnerInv(w) && ConnsKeptBut(w, w', pc) && RowsKept(w, w')
    requires id in w.rows && id in w'.rows && w'.rows[id].ext == w.rows[id].ext && RowSync(w, w.rows[id])
    requires pc.Undoing? ==> exists cb :: cb in w.callbacks && w.callbacks[cb].pc == pc && Settled(w, cb, pc)
    ensures RowSync(w', w'.rows[id])
  {
    if w.rows[id].ext.Some? { LinkedOwner(w, id); }
  }

  lemma RowSyncFront(w: World, w': World, cb: CallbackId, op: CallbackOp, id: RowId)
    requires CallbackAt(w, cb) && CallbackNext(w, w', cb, op) && OwnerInv(w)
    requires ConnsKeptBut(w, w', w.callbacks[cb].pc) && RowsKept(w, w')
    requires CallbackSync(w, w.callbacks[cb].pc) && (id in w.rows ==> RowSync(w, w.rows[id]))
    requires id in w'.rows
    ensures RowSync(w', w'.rows[id])
  {
    assert Settled(w, cb, w.callbacks[cb].pc);
    FrontRow(w, w', cb, op, id);
    if id in w.rows {
      if op.Finalize? { FinalizedRow(w, w', cb, op.commit, id); }
      else { RowSyncKept(w, w', id, w.callbacks[cb].pc); }
    }
  }

  lemma FinalizedRow(w: World, w': World, cb: CallbackId, commit: bool, id: RowId)
    requires FinalizeStep(w, w', cb, commit) && id in w.rows && RowSync(w, w.rows[id])
    requires CallbackSync(w, w.callbacks[cb].pc) && Settled(w, cb, w.callbacks[cb].pc)
    ensures id in w'.rows && RowSync(w', w'.rows[id])
  {
  }

  lemma TaskSyncQuiet(w: World, w': World, k: Task, pc: CallbackPc)
    requires OwnerInv(w) && ConnsKeptBut(w, w', pc) && RowsKept(w, w')
    requires k.id in w.rowOwner && TaskSync(w, k) && SnapLinked(w, k)
    requires pc.Undoing? ==> exists cb :: cb in w.callbacks && w.callbacks[cb].pc == pc && Settled(w, cb, pc)
    ensures TaskSync(w', k)
  {
    if Snap(k.pc).Some? && Snap(k.pc).value.ext.Some? { SnapRow(w, k); }
    if k.Live() { TaskSyncKept(w, w', k); }
  }

  /** The callback's own step. */
  lemma CallbackSyncOwn(w: World, w': World, cb: CallbackId, op: CallbackOp)
    requires CallbackAt(w, cb) && CallbackNext(w, w', cb, op)
    requires CallbackSync(w, w.callbacks[cb].pc) && Settled(w, cb, w.callbacks[cb].pc)
    ensures cb in w'.callbacks && CallbackSync(w', w'.callbacks[cb].pc)
  {
  }

  lemma CallbackSyncQuiet(w: World, w': World, c: CallbackId, pc: CallbackPc)
    requires OwnerInv(w) && ConnsKeptBut(w, w', pc) && RowsKept(w, w')
    requires c in w.callbacks && CallbackSync(w, w.callbacks[c].pc)
    requires pc.Undoing? ==> exists cb :: cb in w.callbacks && cb != c && w.callbacks[cb].pc == pc && Settled(w, cb, pc)
    ensures CallbackSync(w', w.callbacks[c].pc)
  {
    var own := w.callbacks[c].pc;
    assert Settled(w, c, own);
    if own.Persisted? || own.Linked? { CallbackSyncKept(w, w', own); }
  }

  lemma RowsSyncFront(w: World, w': World, cb: CallbackId, op: CallbackOp)
    requires Base(w) && SyncInv(w) && CallbackAt(w, cb) && CallbackNext(w, w', cb, op)
    ensures forall id :: id in w'.rows ==> RowSync(w', w'.rows[id])
  {
    FrontConns(w, w', cb, op);
    FrontRowsKept(w, w', cb, op);
    forall id | id in w'.rows ensures RowSync(w', w'.rows[id]) { RowSyncFront(w, w', cb, op, id); }
  }

  lemma TasksSyncFront(w: World, w': World, cb: CallbackId, op: CallbackOp)
    requires Base(w) && SyncInv(w) && CallbackAt(w, cb) && CallbackNext(w, w', cb, op)
    ensures forall t :: t in w.tasks ==> TaskSync(w', w.tasks[t])
  {
    assert Settled(w, cb, w.callbacks[cb].pc);
    FrontConns(w, w', cb, op);
    FrontRowsKept(w, w', cb, op);
    forall t | t in w.tasks ensures TaskSync(w', w.tasks[t]) {
      assert TaskSound(w, w.tasks[t]);
      TaskSyncQuiet(w, w', w.tasks[t], w.callbacks[cb].pc);
    }
  }

  lemma SyncFront(w: World, w': World, cb: CallbackId, op: CallbackOp)
    requires Base(w) && SyncInv(w) && CallbackAt(w, cb) && CallbackNext(w, w', cb, op)
    ensures SyncInv(w')
  {
    RowsSyncFront(w, w', cb, op);
    TasksSyncFront(w, w', cb, op);
    FrontFrame(w, w', cb, op);
    forall c | c in w'.callbacks ensures CallbackSync(w', w'.callbacks[c].pc) {
      CallbackSyncFront(w, w', cb, op, c);
    }
  }

  lemma CallbackSyncFront(w: World, w': World, cb: CallbackId, op: CallbackOp, c: CallbackId)
    requires Base(w) && SyncInv(w) && CallbackAt(w, cb) && CallbackNext(w, w', cb, op) && c in w'.callbacks
    ensures CallbackSync(w', w'.callbacks[c].pc)
  {
    assert Settled(w, cb, w.callbacks[cb].pc);
    if c == cb {
      CallbackSyncOwn(w, w', cb, op);
    } else {
      FrontFrame(w, w', cb, op);
      FrontConns(w, w', cb, op);
      FrontRowsKept(w, w', cb, op);
      CallbackSyncQuiet(w, w', c, w.callbacks[cb].pc);
    }
  }

  // ------------------------------------------------------------------
  // Other events
  // ------------------------------------------------------------------

  lemma OtherRowsKept(w: World, w': World, e: Event)
    requires Next(w, w', e) && !e.Work? && !e.Front?
    ensures RowsKept(w, w') && w'.rows.Keys == w.rows.Keys
    ensures forall id :: id in w.rows ==> w'.rows[id].ext == w.rows[id].ext
  {
    OtherFrame(w, w', e);
    forall id | id in w.rows
      ensures id in w'.rows && SameSecrets(w.rows[id], w'.rows[id]) && SameFlags(w.rows[id], w'.rows[id])
              && w'.rows[id].ext == w.rows[id].ext
    {
      OtherRow(w, w', e, id);
    }
  }

  /** What the remaining events do, as far as the sync argument is concerned. */
  ghost predicate Idle(w: World, w': World) {
    && RowsKept(w, w') && w'.rows.Keys == w.rows.Keys && w'.conns == w.conns && w'.rowOwner == w.rowOwner
    && (forall id :: id in w.rows ==> w'.rows[id].ext == w.rows[id].ext)
    && (forall c :: c in w.callbacks ==> c in w'.callbacks && w'.callbacks[c].pc == w.callbacks[c].pc)
    && (forall c :: c in w'.callbacks && c !in w.callbacks ==> w'.callbacks[c].pc == Checked)
    && (forall t :: t in w'.tasks && t in w.tasks ==> w'.tasks[t] == w.tasks[t])
    && (forall t :: t in w'.tasks && t !in w.tasks ==> w'.tasks[t].pc == Queued)
  }

  lemma OtherIdle(w: World, w': World, e: Event)
    requires Next(w, w', e) && !e.Work? && !e.Front?
    ensures Idle(w, w')
  {
    OtherRowsKept(w, w', e);
    OtherFrame(w, w', e);
    ArriveOnly(w, w', e);
    forall t | t in w'.tasks
      ensures (t in w.tasks ==> w'.tasks[t] == w.tasks[t]) && (t !in w.tasks ==> w'.tasks[t].pc == Queued)
    {
      OtherTask(w, w', e, t);
    }
  }

  lemma SyncIdle(w: World, w': World)
    requires Base(w) && SyncInv(w) && Idle(w, w')
    ensures SyncInv(w')
  {
    forall id | id in w'.rows ensures RowSync(w', w'.rows[id]) { RowSyncKept(w, w', id, Checked); }
    forall t | t in w'.tasks ensures TaskSync(w', w'.tasks[t]) {
      if t in w.tasks {
        assert TaskSound(w, w.tasks[t]);
        TaskSyncQuiet(w, w', w.tasks[t], Checked);
      }
    }
    forall c | c in w'.callbacks ensures CallbackSync(w', w'.callbacks[c].pc) {
      if c in w.callbacks { CallbackSyncQuiet(w, w', c, Checked); }
    }
  }

  lemma SyncNext(w: World, w': World, e: Event)
    requires Base(w) && SyncInv(w) && Next(w, w', e)
    ensures SyncInv(w')
  {
    if e.Work? { SyncWork(w, w', e.t, e.op); }
    else if e.Front? { SyncFront(w, w', e.cb, e.cop); }
    else {
      OtherIdle(w, w', e);
      SyncIdle(w, w');
    }
  }

  // ------------------------------------------------------------------
  // Runs
  // ------------------------------------------------------------------

  lemma RunBase(ws: seq<World>, es: seq<Event>, n: nat)
    requires TimelyRun(ws, es) && n < |ws|
    ensures Base(ws[n])
  {
    TimelyRunsExclude(ws, es, n);
    RunLinks(ws, es, n);
  }

  lemma InitSync(mk: Bytes, now: int)
    ensures SyncInv(Init(mk, now))
  {
  }

  lemma {:induction false} RunSync(ws: seq<World>, es: seq<Event>, n: nat)
    requires TimelyRun(ws, es) && n < |ws|
    ensures SyncInv(ws[n])
  {
    if n == 0 {
      InitSync(ws[0].mk, ws[0].now);
    } else {
      RunSync(ws, es, n - 1);
      RunBase(ws, es, n - 1);
      SyncNext(ws[n - 1], ws[n], es[n - 1]);
    }
  }

  /**
   In every timely run: for a linked row that is settled, `ap_sync_pending = false` implies that
   Activepieces holds exactly the plaintext of the row's access ciphertext.
   */
  lemma NotPendingMeansSynced(ws: seq<World>, es: seq<Event>, n: nat, id: RowId)
    requires TimelyRun(ws, es) && n < |ws| && id in ws[n].rows
    requires ws[n].rows[id].ext.Some? && !ws[n].rows[id].h.unsettled && !ws[n].rows[id].syncPending
    ensures var r := ws[n].rows[id];
            && OpenAccess(ws[n].mk, id, r).Ok?
            && Holds(ws[n], r.ext.value, OpenAccess(ws[n].mk, id, r).value)
  {
    RunSync(ws, es, n);
    RunBase(ws, es, n);
    assert RowSync(ws[n], ws[n].rows[id]);
    assert RowOpens(ws[n].mk, id, ws[n].rows[id]);
    OpenedToken(ws[n].mk, id, ws[n].rows[id]);
  }

  lemma OpenedToken(mk: Bytes, id: RowId, r: Row)
    requires OpenAccess(mk, id, r).Ok?
    ensures OpenAccess(mk, id, r).value == Token(r)
  {
  }

  /** A pass that read the link and whose flag write commits leaves its row linked and settled. */
  lemma CompletedPassSettles(ws: seq<World>, es: seq<Event>, n: nat, t: TaskId)
    requires TimelyRun(ws, es) && n < |es| && es[n] == Work(t, Flag(true))
    requires t in ws[n].tasks && Snap(ws[n].tasks[t].pc).Some? && Snap(ws[n].tasks[t].pc).value.ext.Some?
    ensures var id := ws[n].tasks[t].id;
            && id in ws[n + 1].rows
            && ws[n + 1].rows[id].ext == Snap(ws[n].tasks[t].pc).value.ext
            && !ws[n + 1].rows[id].h.unsettled
            && (ws[n + 1].rows[id].syncPending <==>
                ws[n].tasks[t].pc.Pushed? && !ws[n].tasks[t].pc.synced)
  {
    var w, id := ws[n], ws[n].tasks[t].id;
    assert id in w.rows && w.rows[id].ext == Snap(w.tasks[t].pc).value.ext by {
      RunSync(ws, es, n);
      RunBase(ws, es, n);
      SnapRow(w, w.tasks[t]);
    }
    FlagSettles(w, ws[n + 1], t);
  }

  lemma FlagSettles(w: World, w': World, t: TaskId)
    requires FlagStep(w, w', t, true) && w.tasks[t].id in w.rows && w.tasks[t].pc.row.ext.Some?
    ensures var id := w.tasks[t].id;
            && id in w'.rows && w'.rows[id].ext == w.rows[id].ext && !w'.rows[id].h.unsettled
            && (w'.rows[id].syncPending <==> w.tasks[t].pc.Pushed? && !w.tasks[t].pc.synced)
  {
  }

  // ------------------------------------------------------------------
  // The AP-only pass
  // ------------------------------------------------------------------

  predicate ApOnlyPc(pc: TaskPc) {
    pc.Queued? || pc.ApLocked? || pc.ApLoaded? || pc.ApPushed? || pc.Unlocking? || pc.Releasing? || pc.Done?
  }

  ghost predicate ApOnlyInv(w: World) {
    forall t :: t in w.tasks && w.tasks[t].kind == ApRetry ==> ApOnlyPc(w.tasks[t].pc)
  }

  /** An AP-only pass asks no provider and changes no ciphertext, key or count of any row. */
  lemma ApOnlyStep(w: World, w': World, t: TaskId, op: TaskOp)
    requires TaskAt(w, t) && TaskNext(w, w', t, op) && w.tasks[t].kind == ApRetry && ApOnlyPc(w.tasks[t].pc)
    ensures !op.AskProvider? && !op.Rotate? && !op.Decrypt? && !op.Mark?
    ensures t in w'.tasks && w'.tasks[t].kind == ApRetry && ApOnlyPc(w'.tasks[t].pc)
    ensures forall id :: id in w.rows ==>
              id in w'.rows && SameIdentity(w.rows[id], w'.rows[id]) && SameSecrets(w.rows[id], w'.rows[id])
              && w'.rows[id].status == w.rows[id].status
  {
  }

  lemma ApOnlyNext(w: World, w': World, e: Event)
    requires ApOnlyInv(w) && Next(w, w', e)
    ensures ApOnlyInv(w')
  {
    if e.Work? {
      WorkFrame(w, w', e.t, e.op);
      WorkTask(w, w', e.t, e.op);
      if w.tasks[e.t].kind == ApRetry { ApOnlyStep(w, w', e.t, e.op); }
    } else if e.Front? {
      FrontFrame(w, w', e.cb, e.cop);
    } else {
      forall t | t in w'.tasks && w'.tasks[t].kind == ApRetry ensures ApOnlyPc(w'.tasks[t].pc) {
        OtherTask(w, w', e, t);
      }
    }
  }

  lemma {:induction false} ApOnlyPasses(ws: seq<World>, es: seq<Event>, n: nat)
    requires IsRun(ws, es) && n < |ws|
    ensures ApOnlyInv(ws[n])
  {
    if n > 0 {
      ApOnlyPasses(ws, es, n - 1);
      ApOnlyNext(ws[n - 1], ws[n], es[n - 1]);
    }
  }

  /** In every run, whatever step an AP-only task takes. */
  lemma ApOnlyPassChangesNoSecret(ws: seq<World>, es: seq<Event>, n: nat, t: TaskId, op: TaskOp, id: RowId)
    requires IsRun(ws, es) && n < |es| && es[n] == Work(t, op)
    requires t in ws[n].tasks && ws[n].tasks[t].kind == ApRetry && id in ws[n].rows
    ensures !op.AskProvider?
    ensures id in ws[n + 1].rows && SameSecrets(ws[n].rows[id], ws[n + 1].rows[id])
    ensures SameIdentity(ws[n].rows[id], ws[n + 1].rows[id]) && ws[n + 1].rows[id].status == ws[n].rows[id].status
  {
    ApOnlyPasses(ws, es, n);
    ApOnlyStep(ws[n], ws[n + 1], t, op);
  }

  // ------------------------------------------------------------------
  // What the pass that did not see the link leaves behind
  // ------------------------------------------------------------------

  /**
   The read of the link matters.  A full pass that read the row before the callback linked it rotates
   it, pushes nothing and clears the flag; when the callback then finalizes, the row is linked and
   not pending, while Activepieces still holds the token of the code exchange.
   */
  lemma UnlinkedReadLeavesOldToken(w0: World, w1: World, w2: World, w3: World, w4: World,
                                   t: TaskId, cb: CallbackId, f: Fresh)
    requires TaskAt(w0, t) && w0.tasks[t].pc.Obtained? && w0.tasks[t].pc.row.ext.None?
    requires cb in w0.callbacks && w0.callbacks[cb].pc.Linked? && w0.callbacks[cb].pc.id == w0.tasks[t].id
    requires w0.tasks[t].id in w0.rows
    requires RotateStep(w0, w1, t, f, true) && PushStep(w1, w2, t, ApOk) && FlagStep(w2, w3, t, true)
    requires FinalizeStep(w3, w4, cb, true)
    ensures var id := w0.tasks[t].id;
            var ext := w0.callbacks[cb].pc.ext;
            && id in w4.rows && w4.rows[id].ext == Some(ext) && !w4.rows[id].syncPending
            && Token(w4.rows[id]) == w0.tasks[t].pc.parsed.access
            && w4.conns == w0.conns && w4.rows[id].h.unsettled
            && (SyncInv(w0) && !w0.rows[id].h.unsettled ==> Holds(w4, ext, Token(w0.rows[id])))
  {
    UnlinkedPass(w0, w1, w2, w3, t, f);
    assert SyncInv(w0) ==> CallbackSync(w0, w0.callbacks[cb].pc);
  }

  lemma UnlinkedPass(w0: World, w1: World, w2: World, w3: World, t: TaskId, f: Fresh)
    requires TaskAt(w0, t) && w0.tasks[t].pc.Obtained? && w0.tasks[t].pc.row.ext.None? && w0.tasks[t].id in w0.rows
    requires RotateStep(w0, w1, t, f, true) && PushStep(w1, w2, t, ApOk) && FlagStep(w2, w3, t, true)
    ensures var id := w0.tasks[t].id;
            && id in w3.rows && w3.rows[id].ext == w0.rows[id].ext && !w3.rows[id].syncPending
            && w3.rows[id].h.unsettled && Token(w3.rows[id]) == w0.tasks[t].pc.parsed.access
            && w3.conns == w0.conns && w3.callbacks == w0.callbacks
  {
  }
}
