/**
 Runs from the empty vault that end where the code's promises fail: a lost update, an old token at
 Activepieces behind a clear flag, and a completed saga relabelled FAILED.
 */
module VaultScenarios {
  import opened Wrappers
  import opened Envelope
  import opened Vault
  import opened VaultFrames
  import opened VaultStatus
  import opened VaultSecrets
  import opened VaultLease
  import opened VaultSync
  import opened VaultSagas

  /** The last world of a run from the empty vault; of a timely one if asked for. */
  ghost predicate Reached(w: World, timely: bool) {
    exists ws, es :: IsRun(ws, es) && ws[|es|] == w && (timely ==> TimelyRun(ws, es))
  }

  lemma ReachInit(mk: Bytes, now: int)
    ensures Reached(Init(mk, now), true)
  {
    var ws, es: seq<Event> := [Init(mk, now)], [];
    assert TimelyRun(ws, es) && ws[|es|] == Init(mk, now);
  }

  lemma ReachStep(w: World, w': World, e: Event, timely: bool)
    requires Reached(w, timely) && Next(w, w', e) && (timely ==> Timely(w'))
    ensures Reached(w', timely)
  {
    var ws, es :| IsRun(ws, es) && ws[|es|] == w && (timely ==> TimelyRun(ws, es));
    var vs, ds := ws + [w'], es + [e];
    forall k | 0 <= k < |ds| ensures Next(vs[k], vs[k + 1], ds[k]) {
      if k < |es| { assert ds[k] == es[k] && vs[k] == ws[k] && vs[k + 1] == ws[k + 1]; }
    }
    assert IsRun(vs, ds) && vs[|ds|] == w';
  }

  lemma ReachAnyway(w: World)
    requires Reached(w, true)
    ensures Reached(w, false)
  {
    var ws, es :| IsRun(ws, es) && ws[|es|] == w && TimelyRun(ws, es);
  }

  // ------------------------------------------------------------------
  // The cast
  // ------------------------------------------------------------------

  /** One state token with two callbacks on it, what the providers answer and which values are drawn. */
  datatype Cast = Cast(
    mk: Bytes, start: int, nonce: Nonce, tenant: Bytes, provider: Bytes, winner: CallbackId, loser: CallbackId,
    id: RowId, ext: ExtId, exchanged: Parsed, refreshed: Parsed, t: TaskId, u: TaskId, f: Fresh, g: Fresh, h: Fresh)

  predicate Sized(f: Fresh) {
    |f.dek| == DEK_BYTES && |f.ivDek| == |f.ivAccess| == |f.ivRefresh| == GCM_IV_BYTES
  }

  predicate Fit(c: Cast) {
    && c.nonce != [] && c.tenant != [] && BAR !in c.provider && BAR !in c.id
    && c.winner != c.loser && c.t != c.u
    && Truthy(c.exchanged.refresh) && c.exchanged.expiresIn.Some? && c.exchanged.expiresIn.value > 0
    && Sized(c.f) && Sized(c.g) && Sized(c.h)
    && c.f.dek != c.g.dek && c.f.dek != c.h.dek && c.g.dek != c.h.dek
  }

  function Sealed(c: Cast): Result<Secrets, CryptoError> {
    SealTokens(c.mk, RowAad(c.tenant, c.provider, c.id), c.exchanged, c.f)
  }

  function StoredRow(c: Cast): Row
    requires Sealed(c).Ok?
  {
    NewRow(c.start, c.tenant, c.provider, c.exchanged, Sealed(c).value)
  }

  // ------------------------------------------------------------------
  // Authorization
  // ------------------------------------------------------------------

  function Waiting(c: Cast, pc: CallbackPc): map<CallbackId, Callback> {
    map[c.winner := Callback(c.nonce, c.tenant, c.provider, pc, true),
        c.loser := Callback(c.nonce, c.tenant, c.provider, Checked, true)]
  }

  /** The vault before the winner has stored its row. */
  function EarlyWorld(c: Cast, pc: CallbackPc, nonces: Nonces): World {
    World(c.mk, c.start, map[], map[c.nonce := Saga(c.tenant, c.provider, Initiated, true, None, None)],
          map[], nonces, map[], map[], Waiting(c, pc), map[], map[], map[], map[], {c.nonce}, {})
  }

  function ArrivedWorld(c: Cast): World {
    EarlyWorld(c, Checked, map[c.nonce := NonceEntry(c.tenant, c.start + STATE_TTL_SECONDS)])
  }

  function ExchangedWorld(c: Cast): World { EarlyWorld(c, Exchanged(c.exchanged), map[]) }

  /** And after, before any worker has run. */
  function LateWorld(c: Cast, pc: CallbackPc, row: Row, status: SagaStatus, linked: bool): World {
    World(c.mk, c.start, map[c.id := row],
          map[c.nonce := Saga(c.tenant, c.provider, status, true, Some(c.id),
            if pc.Completed? then Some(c.ext) else None)],
          map[], map[], map[], if linked then map[c.ext := c.exchanged.access] else map[], Waiting(c, pc), map[], map[],
          map[c.id := c.winner], if linked then map[c.ext := c.winner] else map[], {c.nonce}, {c.f.dek})
  }

  function StoredWorld(c: Cast): World
    requires Sealed(c).Ok?
  {
    LateWorld(c, Persisted(c.id, c.exchanged.access), StoredRow(c), TokenObtained, false)
  }

  function LinkedWorld(c: Cast): World
    requires Sealed(c).Ok?
  {
    LateWorld(c, Linked(c.id, c.ext), StoredRow(c), TokenObtained, true)
  }

  function CompletedWorld(c: Cast): World
    requires Sealed(c).Ok?
  {
    LateWorld(c, Completed(c.id, c.ext), StoredRow(c).(ext := Some(c.ext)), SagaCompleted, true)
  }

  lemma Register1(c: Cast) returns (w: World)
    requires Fit(c)
    ensures Reached(w, true)
    ensures w == ArrivedWorld(c).(callbacks := map[])
  {
    ReachInit(c.mk, c.start);
    var w0 := Init(c.mk, c.start);
    var saga := Saga(c.tenant, c.provider, Initiated, false, None, None);
    var w1 := w0.(sagas := w0.sagas[c.nonce := saga], usedNonces := w0.usedNonces + {c.nonce});
    ReachStep(w0, w1, Initiate(c.nonce, c.tenant, c.provider), true);
    w := w1.(sagas := w1.sagas[c.nonce := saga.(registered := true)],
             nonces := w1.nonces[c.nonce := NonceEntry(c.tenant, c.start + STATE_TTL_SECONDS)]);
    ReachStep(w1, w, Register(c.nonce, RegOk), true);
  }

  lemma Arrive2(c: Cast)
    requires Fit(c)
    ensures Reached(ArrivedWorld(c), true)
  {
    var w2 := Register1(c);
    var w3 := w2.(callbacks := w2.callbacks[c.winner := Callback(c.nonce, c.tenant, c.provider, Checked, true)]);
    ReachStep(w2, w3, Vault.Arrive(c.winner, c.nonce, c.tenant, c.provider), true);
    var w4 := w3.(callbacks := w3.callbacks[c.loser := Callback(c.nonce, c.tenant, c.provider, Checked, true)]);
    ReachStep(w3, w4, Vault.Arrive(c.loser, c.nonce, c.tenant, c.provider), true);
    assert w4 == ArrivedWorld(c);
  }

  lemma Exchange1(c: Cast)
    requires Fit(c)
    ensures Reached(ExchangedWorld(c), true)
  {
    Arrive2(c);
    var w4 := ArrivedWorld(c);
    var w5 := SetCallback(w4, c.winner, Won).(nonces := w4.nonces - {c.nonce});
    ReachStep(w4, w5, Front(c.winner, Consume), true);
    var w6 := SetCallback(w5, c.winner, Exchanged(c.exchanged));
    ReachStep(w5, w6, Front(c.winner, Exchange(Some(c.exchanged))), true);
    assert w6.callbacks == Waiting(c, Exchanged(c.exchanged)) && w6.nonces == map[];
  }

  lemma Store(c: Cast)
    requires Fit(c)
    ensures Sealed(c).Ok? && Reached(StoredWorld(c), true)
  {
    Exchange1(c);
    PersistFits(c);
    ReachStep(ExchangedWorld(c), StoredWorld(c), Front(c.winner, Persist(c.id, c.f, true)), true);
  }

  lemma PersistFits(c: Cast)
    requires Fit(c)
    ensures Sealed(c).Ok? && PersistStep(ExchangedWorld(c), StoredWorld(c), c.winner, c.id, c.f, true)
  {
    var w, w' := ExchangedWorld(c), StoredWorld(c);
    assert InsertToken(map[], c.id, StoredRow(c)) == map[c.id := StoredRow(c)];
    assert w'.callbacks == w.callbacks[c.winner := w.callbacks[c.winner].(pc := Persisted(c.id, c.exchanged.access))];
    assert w.rowOwner[c.id := c.winner] == w'.rowOwner && w.usedKeys + {c.f.dek} == w'.usedKeys;
    assert w'.sagas == SetSaga(w.sagas, c.nonce, (g: Saga) => g.(status := TokenObtained, token := Some(c.id)));
  }

  lemma LinkFits(c: Cast)
    requires Fit(c) && Sealed(c).Ok?
    ensures LinkStep(StoredWorld(c), LinkedWorld(c), c.winner, c.ext, ApOk)
    ensures FinalizeStep(LinkedWorld(c), CompletedWorld(c), c.winner, true)
  {
    var w, w', w'' := StoredWorld(c), LinkedWorld(c), CompletedWorld(c);
    assert w'.callbacks == w.callbacks[c.winner := w.callbacks[c.winner].(pc := Linked(c.id, c.ext))];
    assert w''.callbacks == w'.callbacks[c.winner := w'.callbacks[c.winner].(pc := Completed(c.id, c.ext))];
    assert w''.sagas == SetSaga(w'.sagas, c.nonce, (g: Saga) => g.(status := SagaCompleted, ext := Some(c.ext)));
  }

  lemma Complete1(c: Cast)
    requires Fit(c)
    ensures Sealed(c).Ok? && Reached(LinkedWorld(c), true) && Reached(CompletedWorld(c), true)
  {
    Store(c);
    LinkFits(c);
    ReachStep(StoredWorld(c), LinkedWorld(c), Front(c.winner, Link(c.ext, ApOk)), true);
    ReachStep(LinkedWorld(c), CompletedWorld(c), Front(c.winner, Finalize(true)), true);
  }

  // ------------------------------------------------------------------
  // The loser relabels
  // ------------------------------------------------------------------

  /**
   Reachable without any fault but a duplicate callback: the saga is COMPLETED, then FAILED, while the
   row stays in place, linked and ACTIVE.
   */
  lemma RelabelIsReached(c: Cast) returns (w: World, w': World)
    requires Fit(c)
    ensures Reached(w, true) && Complete(w, c.nonce)
    ensures Reached(w', true) && c.nonce in w'.sagas && w'.sagas[c.nonce].status == SagaFailed
    ensures c.id in w'.rows && w'.rows[c.id].ext == Some(c.ext) && w'.rows[c.id].status == Active
  {
    Complete1(c);
    w := CompletedWorld(c);
    var v := SetCallback(w, c.loser, Failing(false));
    ReachStep(w, v, Front(c.loser, Consume), true);
    w' := SetCallback(v, c.loser, Failed(false)).(sagas := FailSaga(v.sagas, c.nonce));
    ReachStep(v, w', Front(c.loser, MarkFailed(true)), true);
  }

  // ------------------------------------------------------------------
  // A refresh up to the provider's answer
  // ------------------------------------------------------------------

  /** The row is due and free, and its refresh token opens. */
  predicate Ready(w: World, t: TaskId, id: RowId) {
    && t !in w.tasks && id in w.rows && w.rows[id].status == Active && NeedsFull(w.rows[id], w.now)
    && (w.rows[id].leaseUntil.None? || w.rows[id].leaseUntil.value < w.now)
    && (id in w.locks ==> w.locks[id] <= w.now)
    && w.rows[id].refresh.Some? && OpenRefresh(w.mk, id, w.rows[id]).Ok?
  }

  function Held(w: World, id: RowId): Row
    requires id in w.rows
  {
    w.rows[id].(leaseUntil := Some(w.now + REFRESH_LEASE_TTL_SECONDS))
  }

  function Claimed(w: World, t: TaskId, id: RowId, pc: TaskPc): World
    requires id in w.rows
  {
    w.(tasks := w.tasks[t := Task(id, FullRefresh, w.now + REFRESH_LEASE_TTL_SECONDS, pc, true)],
       rows := w.rows[id := Held(w, id)])
  }

  function LockedBy(w: World, t: TaskId, id: RowId, pc: TaskPc): World
    requires id in w.rows
  {
    Claimed(w, t, id, pc).(locks := w.locks[id := w.now + REFRESH_LOCK_TTL])
  }

  /** A claim of one row by one task. */
  predicate Single(ids: map<TaskId, RowId>, t: TaskId, id: RowId) {
    |ids| == 1 && ids.Keys == {t} && ids.Values == {id} && t in ids && ids[t] == id
  }

  lemma ClaimFits(w: World, t: TaskId, id: RowId) returns (ids: map<TaskId, RowId>)
    requires Ready(w, t, id)
    ensures ids == map[t := id] && ClaimStep(w, Claimed(w, t, id, Queued), w.now, 1, ids)
  {
    ids := map[t := id];
    assert |ids| == 1 && ids.Keys == {t} && ids.Values == {id};
    SingleFits(w, t, id, ids);
  }

  lemma SingleFits(w: World, t: TaskId, id: RowId, ids: map<TaskId, RowId>)
    requires Ready(w, t, id) && Single(ids, t, id)
    ensures ClaimStep(w, Claimed(w, t, id, Queued), w.now, 1, ids)
  {
    OneClaimed(w, t, id, ids);
    assert StampLease(w.rows, ids.Values, w.now + REFRESH_LEASE_TTL_SECONDS) == w.rows[id := Held(w, id)];
  }

  lemma OneClaimed(w: World, t: TaskId, id: RowId, ids: map<TaskId, RowId>)
    requires Ready(w, t, id) && Single(ids, t, id)
    ensures ClaimOk(w, w.now, 1, ids)
    ensures w.tasks + ClaimedTasks(w, w.now, ids) ==
            w.tasks[t := Task(id, FullRefresh, w.now + REFRESH_LEASE_TTL_SECONDS, Queued, true)]
  {
    forall u | u in ids ensures u == t { assert u in ids.Keys; }
    var one := ClaimedTasks(w, w.now, ids);
    assert forall u :: u in one <==> u == t;
  }

  lemma LoadFits(w: World, t: TaskId, id: RowId)
    requires Ready(w, t, id)
    ensures LoadStep(Claimed(w, t, id, Queued), Claimed(w, t, id, Loaded(Held(w, id))), t)
    ensures LockStep(Claimed(w, t, id, Loaded(Held(w, id))), LockedBy(w, t, id, Locked(Held(w, id))), t)
  {
    var v, v' := Claimed(w, t, id, Queued), Claimed(w, t, id, Loaded(Held(w, id)));
    assert v'.tasks == v.tasks[t := v.tasks[t].(pc := Loaded(Held(w, id)))];
    var v'' := LockedBy(w, t, id, Locked(Held(w, id)));
    assert v''.tasks == v'.tasks[t := v'.tasks[t].(pc := Locked(Held(w, id)))];
  }

  lemma DecryptFits(w: World, t: TaskId, id: RowId)
    requires Ready(w, t, id)
    ensures DecryptStep(LockedBy(w, t, id, Locked(Held(w, id))), LockedBy(w, t, id, Decrypted(Held(w, id))), t)
  {
    var v, v' := LockedBy(w, t, id, Locked(Held(w, id))), LockedBy(w, t, id, Decrypted(Held(w, id)));
    assert OpenRefresh(w.mk, id, Held(w, id)) == OpenRefresh(w.mk, id, w.rows[id]);
    assert v'.tasks == v.tasks[t := v.tasks[t].(pc := Decrypted(Held(w, id)))];
  }

  lemma AskFits(w: World, t: TaskId, id: RowId, q: Parsed)
    requires id in w.rows
    ensures AskProviderStep(LockedBy(w, t, id, Decrypted(Held(w, id))),
                            LockedBy(w, t, id, Obtained(Held(w, id), q)), t, Granted(q))
  {
    var v, v' := LockedBy(w, t, id, Decrypted(Held(w, id))), LockedBy(w, t, id, Obtained(Held(w, id), q));
    assert v'.tasks == v.tasks[t := v.tasks[t].(pc := Obtained(Held(w, id), q))];
  }

  lemma TimelyClaimed(w: World, t: TaskId, id: RowId, pc: TaskPc)
    requires Timely(w) && id in w.rows
    ensures Timely(Claimed(w, t, id, pc)) && Timely(LockedBy(w, t, id, pc))
  {
  }

  lemma Obtain(w: World, t: TaskId, id: RowId, q: Parsed, timely: bool)
    requires Reached(w, timely) && Ready(w, t, id) && (timely ==> Timely(w))
    ensures Reached(LockedBy(w, t, id, Obtained(Held(w, id), q)), timely)
  {
    var r := Held(w, id);
    ObtainLock(w, t, id, timely);
    if timely {
      TimelyClaimed(w, t, id, Decrypted(r));
      TimelyClaimed(w, t, id, Obtained(r, q));
    }
    DecryptFits(w, t, id);
    ReachWork(LockedBy(w, t, id, Locked(r)), LockedBy(w, t, id, Decrypted(r)), t, Decrypt, timely);
    AskFits(w, t, id, q);
    ReachWork(LockedBy(w, t, id, Decrypted(r)), LockedBy(w, t, id, Obtained(r, q)), t, AskProvider(Granted(q)), timely);
  }

  lemma ObtainLock(w: World, t: TaskId, id: RowId, timely: bool)
    requires Reached(w, timely) && Ready(w, t, id) && (timely ==> Timely(w))
    ensures Reached(LockedBy(w, t, id, Locked(Held(w, id))), timely)
  {
    var r := Held(w, id);
    if timely {
      TimelyClaimed(w, t, id, Queued);
      TimelyClaimed(w, t, id, Loaded(r));
      TimelyClaimed(w, t, id, Locked(r));
    }
    var ids := ClaimFits(w, t, id);
    ReachStep(w, Claimed(w, t, id, Queued), Claim(w.now, 1, ids), timely);
    LoadFits(w, t, id);
    ReachWork(Claimed(w, t, id, Queued), Claimed(w, t, id, Loaded(r)), t, Load, timely);
    ReachWork(Claimed(w, t, id, Loaded(r)), LockedBy(w, t, id, Locked(r)), t, Lock, timely);
  }

  lemma ReachWork(w: World, w': World, t: TaskId, op: TaskOp, timely: bool)
    requires Reached(w, timely) && TaskAt(w, t) && TaskNext(w, w', t, op) && (timely ==> Timely(w'))
    ensures Reached(w', timely)
  {
    ReachStep(w, w', Work(t, op), timely);
  }

  /** What was just stored opens, and is due once its lifetime is over. */
  lemma StoredIsReady(c: Cast, w: World, t: TaskId)
    requires Fit(c) && Sealed(c).Ok? && w.mk == c.mk && c.id in w.rows && t !in w.tasks
    requires w.rows[c.id].(leaseUntil := None, ext := None) == StoredRow(c)
    requires w.rows[c.id].leaseUntil.Some? ==> w.rows[c.id].leaseUntil.value < w.now
    requires c.id in w.locks ==> w.locks[c.id] <= w.now
    requires w.now >= c.start + c.exchanged.expiresIn.value
    ensures Ready(w, t, c.id)
  {
    var r := w.rows[c.id];
    SealingOpens(c.mk, c.id, StoredRow(c), c.exchanged, c.f);
    assert OpenRefresh(c.mk, c.id, r) == OpenRefresh(c.mk, c.id, StoredRow(c));
  }

  // ------------------------------------------------------------------
  // The lost update
  // ------------------------------------------------------------------

  /** A replica reads the row, outlives its lease by a second, and another one claims the row. */
  lemma OverlapIsReached(c: Cast) returns (w: World)
    requires Fit(c)
    ensures Reached(w, false)
    ensures c.id in w.rows && w.rows[c.id].h.rotations == 2 && w.rows[c.id].refreshCount == 1
  {
    var v := Overlap(c);
    var w1 := Rotated(v, c.t, c.g);
    RotateFits(v, c.t, c.g);
    ReachWork(v, w1, c.t, Rotate(c.g, true), false);
    w := Rotated(w1, c.u, c.h);
    RotateFits(w1, c.u, c.h);
    ReachWork(w1, w, c.u, Rotate(c.h, true), false);
    OverlapLosesAnUpdate(v, w1, w, c.t, c.u, c.g, c.h);
  }

  lemma Overlap(c: Cast) returns (v: World)
    requires Fit(c)
    ensures Reached(v, false) && v.usedKeys == {c.f.dek}
    ensures c.id in v.rows && v.rows[c.id].refreshCount == v.rows[c.id].h.rotations == 0
    ensures TaskAt(v, c.t) && TaskAt(v, c.u) && v.tasks[c.t].id == v.tasks[c.u].id == c.id
    ensures v.tasks[c.t].pc.Obtained? && v.tasks[c.u].pc.Obtained?
    ensures v.tasks[c.t].pc.row.refreshCount == v.tasks[c.u].pc.row.refreshCount == 0
  {
    var w1, w2 := FirstReader(c);
    var w3 := w2.(now := w2.now + 301);
    ReachStep(w2, w3, Tick(301), false);
    StoredIsReady(c, w3, c.u);
    Obtain(w3, c.u, c.id, c.refreshed, false);
    v := LockedBy(w3, c.u, c.id, Obtained(Held(w3, c.id), c.refreshed));
  }

  lemma FirstReader(c: Cast) returns (w: World, w': World)
    requires Fit(c)
    ensures Sealed(c).Ok? && w.rows == map[c.id := StoredRow(c)] && w.tasks == map[] && w.locks == map[]
    ensures w.mk == c.mk && w.usedKeys == {c.f.dek} && w.now == c.start + c.exchanged.expiresIn.value
    ensures w' == LockedBy(w, c.t, c.id, Obtained(Held(w, c.id), c.refreshed)) && Reached(w', false)
  {
    Store(c);
    ReachAnyway(StoredWorld(c));
    var w0 := StoredWorld(c);
    w := w0.(now := w0.now + c.exchanged.expiresIn.value);
    ReachStep(w0, w, Tick(c.exchanged.expiresIn.value), false);
    StoredIsReady(c, w, c.t);
    Obtain(w, c.t, c.id, c.refreshed, false);
    w' := LockedBy(w, c.t, c.id, Obtained(Held(w, c.id), c.refreshed));
  }

  function Rotated(w: World, t: TaskId, f: Fresh): World
    requires t in w.tasks && w.tasks[t].pc.Obtained? && |f.dek| == DEK_BYTES && w.tasks[t].id in w.rows
  {
    var k := w.tasks[t];
    SetTask(w, t, Committed(k.pc.row, k.pc.parsed.access)).(
      rows := w.rows[k.id := RotatedRow(w, t, f)], usedKeys := w.usedKeys + {f.dek})
  }

  lemma RotateFits(w: World, t: TaskId, f: Fresh)
    requires TaskAt(w, t) && w.tasks[t].pc.Obtained? && w.tasks[t].id in w.rows && FreshKey(w, f)
    ensures RotateStep(w, Rotated(w, t, f), t, f, true)
  {
  }

  // ------------------------------------------------------------------
  // The old token behind a clear flag
  // ------------------------------------------------------------------

  /**
   In a run that is timely throughout: a worker refreshes the row between the create call and the
   finalize.  The row ends linked and not pending, with the refreshed token, while Activepieces holds
   the exchanged one.
   */
  lemma OldTokenIsReached(c: Cast) returns (w: World)
    requires Fit(c)
    ensures Reached(w, true) && OldTokenOutside(c, w)
  {
    var v := LinkedAndObtained(c);
    var w1 := Rotated(v, c.t, c.g);
    RotateFits(v, c.t, c.g);
    ReachWork(v, w1, c.t, Rotate(c.g, true), true);
    var row := v.tasks[c.t].pc.row;
    var w2 := SetTask(w1, c.t, Pushed(row, true));
    assert PushStep(w1, w2, c.t, ApOk);
    ReachWork(w1, w2, c.t, Push(ApOk), true);
    var w3 := SetTask(w2, c.t, Unlocking).(rows := w2.rows[c.id := FlagRow(w2.rows[c.id], row, false)]);
    assert FlagStep(w2, w3, c.t, true);
    ReachWork(w2, w3, c.t, Flag(true), true);
    w := SetCallback(w3, c.winner, Completed(c.id, c.ext)).(
           rows := w3.rows[c.id := w3.rows[c.id].(ext := Some(c.ext))],
           sagas := SetSaga(w3.sagas, c.nonce, (g: Saga) => g.(status := SagaCompleted, ext := Some(c.ext))));
    ReachStep(w3, w, Front(c.winner, Finalize(true)), true);
    UnlinkedReadLeavesOldToken(v, w1, w2, w3, w, c.t, c.winner, c.g);
  }

  /** What a run that went wrong leaves: linked, not pending, refreshed in the vault and exchanged outside. */
  ghost predicate OldTokenOutside(c: Cast, w: World) {
    && c.id in w.rows && w.rows[c.id].ext == Some(c.ext) && !w.rows[c.id].syncPending
    && Token(w.rows[c.id]) == c.refreshed.access && Holds(w, c.ext, c.exchanged.access)
  }

  /**
   Timely throughout, and in sync at the finalize: the worker read the row before it was linked, and
   rotates it after.  Its pass is complete, flag write included.
   */
  lemma LateRotationIsReached(c: Cast) returns (v: World, w: World)
    requires Fit(c)
    ensures Reached(v, true) && c.id in v.rows && v.rows[c.id].ext == Some(c.ext) && v.rows[c.id].h.rotations == 0
    ensures Holds(v, c.ext, Token(v.rows[c.id]))
    ensures Reached(w, true) && OldTokenOutside(c, w)
    ensures c.t in w.tasks && w.tasks[c.t].pc == Unlocking
  {
    v := FinalizedAndObtained(c);
    var w1 := Rotated(v, c.t, c.g);
    RotateFits(v, c.t, c.g);
    ReachWork(v, w1, c.t, Rotate(c.g, true), true);
    var row := v.tasks[c.t].pc.row;
    var w2 := SetTask(w1, c.t, Pushed(row, true));
    assert PushStep(w1, w2, c.t, ApOk);
    ReachWork(w1, w2, c.t, Push(ApOk), true);
    w := SetTask(w2, c.t, Unlocking).(rows := w2.rows[c.id := FlagRow(w2.rows[c.id], row, false)]);
    assert FlagStep(w2, w, c.t, true);
    ReachWork(w2, w, c.t, Flag(true), true);
    UnlinkedPass(v, w1, w2, w, c.t, c.g);
  }

  lemma FinalizedAndObtained(c: Cast) returns (v: World)
    requires Fit(c)
    ensures Reached(v, true) && Timely(v) && v.usedKeys == {c.f.dek}
    ensures c.id in v.rows && TaskAt(v, c.t) && v.tasks[c.t].id == c.id && v.tasks.Keys == {c.t}
    ensures v.tasks[c.t].pc.Obtained? && v.tasks[c.t].pc.row.ext.None? && v.tasks[c.t].pc.parsed == c.refreshed
    ensures v.rows[c.id].ext == Some(c.ext) && v.rows[c.id].h.rotations == 0
    ensures Token(v.rows[c.id]) == c.exchanged.access && Holds(v, c.ext, c.exchanged.access)
  {
    var u := LinkedAndObtained(c);
    v := SetCallback(u, c.winner, Completed(c.id, c.ext)).(
           rows := u.rows[c.id := u.rows[c.id].(ext := Some(c.ext))],
           sagas := SetSaga(u.sagas, c.nonce, (g: Saga) => g.(status := SagaCompleted, ext := Some(c.ext))));
    ReachStep(u, v, Front(c.winner, Finalize(true)), true);
  }

  /** Timely throughout: a worker that has read the link crashes between its rotation and its push. */
  lemma CrashIsReached(c: Cast) returns (w: World)
    requires Fit(c)
    ensures Reached(w, true) && OldTokenOutside(c, w)
    ensures c.t in w.tasks && !w.tasks[c.t].alive
  {
    var v := CompletedAndObtained(c);
    var w1 := Rotated(v, c.t, c.g);
    RotateFits(v, c.t, c.g);
    ReachWork(v, w1, c.t, Rotate(c.g, true), true);
    w := w1.(tasks := w1.tasks[c.t := w1.tasks[c.t].(alive := false)]);
    ReachWork(w1, w, c.t, TaskCrash, true);
  }

  lemma CompletedAndObtained(c: Cast) returns (v: World)
    requires Fit(c)
    ensures Reached(v, true) && Timely(v) && v.usedKeys == {c.f.dek}
    ensures c.id in v.rows && TaskAt(v, c.t) && v.tasks[c.t].id == c.id
    ensures v.tasks[c.t].pc.Obtained? && v.tasks[c.t].pc.parsed == c.refreshed
    ensures v.rows[c.id].ext == Some(c.ext) && !v.rows[c.id].syncPending && Holds(v, c.ext, c.exchanged.access)
  {
    Complete1(c);
    var w0 := CompletedWorld(c);
    var w1 := w0.(now := w0.now + c.exchanged.expiresIn.value);
    ReachStep(w0, w1, Tick(c.exchanged.expiresIn.value), true);
    StoredIsReady(c, w1, c.t);
    Obtain(w1, c.t, c.id, c.refreshed, true);
    v := LockedBy(w1, c.t, c.id, Obtained(Held(w1, c.id), c.refreshed));
    TimelyClaimed(w1, c.t, c.id, Obtained(Held(w1, c.id), c.refreshed));
  }

  lemma LinkedAndObtained(c: Cast) returns (v: World)
    requires Fit(c)
    ensures Reached(v, true) && Timely(v) && v.usedKeys == {c.f.dek}
    ensures c.id in v.rows && TaskAt(v, c.t) && v.tasks[c.t].id == c.id && v.tasks.Keys == {c.t}
    ensures v.tasks[c.t].pc.Obtained? && v.tasks[c.t].pc.row.ext.None? && v.tasks[c.t].pc.parsed == c.refreshed
    ensures v.rows[c.id].h.rotations == 0 && Token(v.rows[c.id]) == c.exchanged.access
    ensures CallbackAt(v, c.winner) && v.callbacks[c.winner].pc == Linked(c.id, c.ext)
    ensures v.callbacks[c.winner].nonce == c.nonce && Holds(v, c.ext, c.exchanged.access)
  {
    Complete1(c);
    var w0 := LinkedWorld(c);
    var w1 := w0.(now := w0.now + c.exchanged.expiresIn.value);
    ReachStep(w0, w1, Tick(c.exchanged.expiresIn.value), true);
    StoredIsReady(c, w1, c.t);
    Obtain(w1, c.t, c.id, c.refreshed, true);
    v := LockedBy(w1, c.t, c.id, Obtained(Held(w1, c.id), c.refreshed));
    TimelyClaimed(w1, c.t, c.id, Obtained(Held(w1, c.id), c.refreshed));
    assert Token(w1.rows[c.id]) == c.exchanged.access;
  }
}
