/** What one event can change: the shape of every step, used by all the invariant proofs. */
module VaultFrames {
  import opened Wrappers
  import opened Envelope
  import opened Vault

  /** The row a task read and still carries. */
  function Snap(pc: TaskPc): Option<Row> {
    match pc
    case Loaded(r) => Some(r)
    case Locked(r) => Some(r)
    case Decrypted(r) => Some(r)
    case Obtained(r, _) => Some(r)
    case Committed(r, _) => Some(r)
    case Pushed(r, _) => Some(r)
    case ApLoaded(r) => Some(r)
    case ApPushed(r) => Some(r)
    case Marking(r, _) => Some(r)
    case _ => None
  }

  predicate SameIdentity(r: Row, s: Row) {
    r.tenant == s.tenant && r.provider == s.provider && r.account == s.account
  }

  /** Ciphertexts, wrapped key and the count of rotations. */
  predicate SameSecrets(r: Row, s: Row) {
    r.access == s.access && r.refresh == s.refresh && r.wdek == s.wdek
    && r.refreshCount == s.refreshCount && r.h.rotations == s.h.rotations && r.h.stale == s.h.stale
  }

  /** The two booleans that say how the row stands against its Activepieces connection. */
  predicate SameFlags(r: Row, s: Row) {
    r.syncPending == s.syncPending && r.h.unsettled == s.h.unsettled
  }

  /** The task's step is a rotation that commits. */
  ghost predicate Rotates(w: World, t: TaskId, op: TaskOp) {
    op.Rotate? && op.commit && TaskAt(w, t) && w.tasks[t].pc.Obtained? && FreshKey(w, op.rand)
  }

  ghost predicate Inserts(w: World, cb: CallbackId, op: CallbackOp, id: RowId) {
    && op.Persist? && op.commit && CallbackAt(w, cb) && w.callbacks[cb].pc.Exchanged?
    && op.id == id && id !in w.rowOwner && BAR !in id && FreshKey(w, op.rand)
  }

  /** With a 32-byte key, sealing cannot fail. */
  function Sealing(w: World, tenant: Bytes, provider: Bytes, id: RowId, p: Parsed, f: Fresh): (s: Secrets)
    requires |f.dek| == DEK_BYTES
    ensures SealTokens(w.mk, RowAad(tenant, provider, id), p, f) == Ok(s)
    ensures s.refresh.Some? <==> Truthy(p.refresh)
  {
    SealTokens(w.mk, RowAad(tenant, provider, id), p, f).value
  }

  function RotatedRow(w: World, t: TaskId, f: Fresh): Row
    requires t in w.tasks && w.tasks[t].pc.Obtained? && w.tasks[t].id in w.rows
    requires |f.dek| == DEK_BYTES
  {
    var k := w.tasks[t];
    var was := k.pc.row;
    RotateRow(w.rows[k.id], was, Sealing(w, was.tenant, was.provider, k.id, k.pc.parsed, f),
              RefreshTime(w.now, k.pc.parsed.expiresIn))
  }

  function InsertedRow(w: World, cb: CallbackId, id: RowId, f: Fresh): Row
    requires cb in w.callbacks && w.callbacks[cb].pc.Exchanged?
    requires |f.dek| == DEK_BYTES
  {
    var c := w.callbacks[cb];
    NewRow(w.now, c.tenant, c.provider, c.pc.parsed, Sealing(w, c.tenant, c.provider, id, c.pc.parsed, f))
  }

  // ------------------------------------------------------------------
  // Tasks
  // ------------------------------------------------------------------

  /** A worker step moves its own task only and never touches callbacks, sagas, nonces or hooks. */
  lemma WorkFrame(w: World, w': World, t: TaskId, op: TaskOp)
    requires TaskAt(w, t) && TaskNext(w, w', t, op)
    ensures t in w'.tasks && w'.tasks == w.tasks[t := w'.tasks[t]]
    ensures w' == w.(tasks := w'.tasks, rows := w'.rows, locks := w'.locks, conns := w'.conns,
                     usedKeys := w'.usedKeys)
    ensures w.usedKeys <= w'.usedKeys && w'.rows.Keys == w.rows.Keys
  {
  }

  /** A task keeps its row, kind and lease; what it carries is what it carried or what it just read. */
  ghost predicate TaskKept(w: World, w': World, t: TaskId, op: TaskOp) {
    && t in w.tasks && t in w'.tasks
    && var k, k' := w.tasks[t], w'.tasks[t];
       && k'.id == k.id && k'.kind == k.kind && k'.lease == k.lease
       && (Snap(k'.pc).None? || Snap(k'.pc) == Snap(k.pc)
           || (op.Load? && k.id in w.rows && Snap(k'.pc) == Some(w.rows[k.id])))
  }

  lemma WorkTask(w: World, w': World, t: TaskId, op: TaskOp)
    requires TaskAt(w, t) && TaskNext(w, w', t, op)
    ensures TaskKept(w, w', t, op)
  {
    if Reads(op) { WorkTaskReading(w, w', t, op); } else { WorkTaskWriting(w, w', t, op); }
  }

  /** The steps up to the provider's answer. */
  predicate Reads(op: TaskOp) { op.Load? || op.Lock? || op.Decrypt? || op.AskProvider? || op.Raise? }

  lemma WorkTaskReading(w: World, w': World, t: TaskId, op: TaskOp)
    requires TaskAt(w, t) && TaskNext(w, w', t, op) && Reads(op)
    ensures TaskKept(w, w', t, op)
  {
  }

  lemma WorkTaskWriting(w: World, w': World, t: TaskId, op: TaskOp)
    requires TaskAt(w, t) && TaskNext(w, w', t, op) && !Reads(op)
    ensures TaskKept(w, w', t, op)
  {
  }

  /** A worker step touches no row but its own. */
  lemma WorkOtherRow(w: World, w': World, t: TaskId, op: TaskOp, id: RowId)
    requires TaskAt(w, t) && TaskNext(w, w', t, op) && id in w.rows && id != w.tasks[t].id
    ensures id in w'.rows && w'.rows[id] == w.rows[id]
  {
  }

  /** Of a task's steps only a committed rotation changes the secrets of its row. */
  ghost predicate OwnRowKept(w: World, w': World, t: TaskId, op: TaskOp) {
    && t in w.tasks && w.tasks[t].id in w.rows
    && var id := w.tasks[t].id;
       && id in w'.rows && SameIdentity(w.rows[id], w'.rows[id]) && w'.rows[id].ext == w.rows[id].ext
       && (Rotates(w, t, op) ==> w'.rows[id] == RotatedRow(w, t, op.rand))
       && (!Rotates(w, t, op) ==> SameSecrets(w.rows[id], w'.rows[id]))
       && (op.Release? || w'.rows[id].leaseUntil == w.rows[id].leaseUntil)
       && (op.Flag? || Rotates(w, t, op) || SameFlags(w.rows[id], w'.rows[id]))
  }

  lemma WorkOwnRow(w: World, w': World, t: TaskId, op: TaskOp)
    requires TaskAt(w, t) && TaskNext(w, w', t, op) && w.tasks[t].id in w.rows
    ensures OwnRowKept(w, w', t, op)
  {
    if op.Rotate? { RotateOwnRow(w, w', t, op); } else { QuietOwnRow(w, w', t, op); }
  }

  lemma RotateOwnRow(w: World, w': World, t: TaskId, op: TaskOp)
    requires TaskAt(w, t) && TaskNext(w, w', t, op) && w.tasks[t].id in w.rows && op.Rotate?
    ensures OwnRowKept(w, w', t, op)
  {
  }

  lemma QuietOwnRow(w: World, w': World, t: TaskId, op: TaskOp)
    requires TaskAt(w, t) && TaskNext(w, w', t, op) && w.tasks[t].id in w.rows && !op.Rotate?
    ensures OwnRowKept(w, w', t, op)
  {
  }

  // ------------------------------------------------------------------
  // Callbacks
  // ------------------------------------------------------------------

  /** A callback step moves its own callback only and never touches tasks, locks or hooks. */
  lemma FrontFrame(w: World, w': World, cb: CallbackId, op: CallbackOp)
    requires CallbackAt(w, cb) && CallbackNext(w, w', cb, op)
    ensures cb in w'.callbacks && w'.callbacks == w.callbacks[cb := w'.callbacks[cb]]
    ensures w' == w.(callbacks := w'.callbacks, rows := w'.rows, sagas := w'.sagas, nonces := w'.nonces,
                     conns := w'.conns, rowOwner := w'.rowOwner, extOwner := w'.extOwner, usedKeys := w'.usedKeys)
    ensures w.usedKeys <= w'.usedKeys
  {
  }

  lemma FrontOwners(w: World, w': World, cb: CallbackId, op: CallbackOp)
    requires CallbackAt(w, cb) && CallbackNext(w, w', cb, op) && w.rows.Keys <= w.rowOwner.Keys
    ensures w.rowOwner.Keys <= w'.rowOwner.Keys && w'.rows.Keys <= w'.rowOwner.Keys
  {
  }

  /** A callback step inserts at most its own new row and leaves every other row's secrets and lease. */
  ghost predicate FrontRowKept(w: World, w': World, cb: CallbackId, op: CallbackOp, id: RowId) {
    && id in w'.rows
    && (id !in w.rows ==> Inserts(w, cb, op, id) && w'.rows[id] == InsertedRow(w, cb, id, op.rand))
    && (id in w.rows ==>
          && SameIdentity(w.rows[id], w'.rows[id]) && SameSecrets(w.rows[id], w'.rows[id])
          && SameFlags(w.rows[id], w'.rows[id])
          && w'.rows[id].leaseUntil == w.rows[id].leaseUntil
          && (w'.rows[id].ext == w.rows[id].ext || op.Finalize?))
  }

  lemma FrontRow(w: World, w': World, cb: CallbackId, op: CallbackOp, id: RowId)
    requires CallbackAt(w, cb) && CallbackNext(w, w', cb, op) && id in w'.rows
    requires w.rows.Keys <= w.rowOwner.Keys
    ensures FrontRowKept(w, w', cb, op, id)
  {
    if op.Persist? { PersistRow(w, w', cb, op, id); } else { FrontOldRow(w, w', cb, op, id); }
  }

  lemma PersistRow(w: World, w': World, cb: CallbackId, op: CallbackOp, id: RowId)
    requires CallbackAt(w, cb) && CallbackNext(w, w', cb, op) && id in w'.rows && op.Persist?
    requires w.rows.Keys <= w.rowOwner.Keys
    ensures FrontRowKept(w, w', cb, op, id)
  {
  }

  lemma FrontOldRow(w: World, w': World, cb: CallbackId, op: CallbackOp, id: RowId)
    requires CallbackAt(w, cb) && CallbackNext(w, w', cb, op) && id in w'.rows && !op.Persist?
    ensures FrontRowKept(w, w', cb, op, id)
  {
  }

  // ------------------------------------------------------------------
  // Everything else
  // ------------------------------------------------------------------

  /** The remaining events change no secret, no ext and no existing task; only a claim writes leases. */
  lemma OtherFrame(w: World, w': World, e: Event)
    requires Next(w, w', e) && !e.Work? && !e.Front?
    ensures w' == w.(now := w'.now, sagas := w'.sagas, nonces := w'.nonces, callbacks := w'.callbacks,
                     tasks := w'.tasks, rows := w'.rows, seen := w'.seen, hooks := w'.hooks,
                     usedNonces := w'.usedNonces)
    ensures w'.rows.Keys == w.rows.Keys && w.now <= w'.now
    ensures !e.Claim? ==> w'.tasks == w.tasks
  {
  }

  ghost predicate OtherRowKept(w: World, w': World, e: Event, id: RowId) {
    && id in w.rows && id in w'.rows
    && SameIdentity(w.rows[id], w'.rows[id]) && SameSecrets(w.rows[id], w'.rows[id])
    && SameFlags(w.rows[id], w'.rows[id]) && w'.rows[id].ext == w.rows[id].ext
    && (!e.Claim? ==> w'.rows[id].leaseUntil == w.rows[id].leaseUntil)
  }

  lemma OtherRow(w: World, w': World, e: Event, id: RowId)
    requires Next(w, w', e) && !e.Work? && !e.Front? && id in w.rows
    ensures OtherRowKept(w, w', e, id)
  {
    if e.Claim? || e.Revoke? { TableRow(w, w', e, id); } else { UntouchedRow(w, w', e, id); }
  }

  lemma TableRow(w: World, w': World, e: Event, id: RowId)
    requires Next(w, w', e) && (e.Claim? || e.Revoke?) && id in w.rows
    ensures OtherRowKept(w, w', e, id)
  {
  }

  lemma UntouchedRow(w: World, w': World, e: Event, id: RowId)
    requires Next(w, w', e) && !e.Work? && !e.Front? && !e.Claim? && !e.Revoke? && id in w.rows
    ensures OtherRowKept(w, w', e, id)
  {
  }

  /** The task table only grows, by the tasks of a claim. */
  lemma OtherTask(w: World, w': World, e: Event, t: TaskId)
    requires Next(w, w', e) && !e.Work? && !e.Front? && t in w'.tasks
    ensures t in w.tasks ==> w'.tasks[t] == w.tasks[t]
    ensures t !in w.tasks ==>
              && e.Claim? && ClaimOk(w, e.at, e.limit, e.ids) && t in e.ids
              && w'.tasks[t].id == e.ids[t] && w'.tasks[t].pc == Queued && w'.tasks[t].alive
              && w'.tasks[t].lease == e.at + REFRESH_LEASE_TTL_SECONDS
  {
  }
}
