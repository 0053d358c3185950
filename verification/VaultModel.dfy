/**
 The OAuth token vault as a state machine.

 A World holds the tables, the Redis keys, the Activepieces connections and the program counter of
 every actor: callbacks, refresh-worker tasks and webhook deliveries.  An Event is one committed
 transaction, one Redis command, one provider call or one Activepieces call, together with every
 choice the environment makes in it (random bytes, replies, failures, crashes).  Next relates the
 worlds before and after one event; a run is a sequence of worlds so related, in any interleaving.
 */
module Vault {
  import opened Wrappers
  import opened Envelope

  type RowId = Bytes
  type CallbackId = nat
  type TaskId = nat
  type HookId = nat
  type EventId = nat
  type ExtId = nat
  type Nonce = Bytes

  const REFRESH_LEASE_TTL_SECONDS: int := 300
  const REFRESH_LOCK_TTL: int := 300
  const STATE_TTL_SECONDS: int := 300
  const REFRESH_MARGIN_SECONDS: int := 300
  const NO_REFRESH_DELAY_SECONDS: int := 365 * 24 * 3600
  const EVENT_DEDUPE_TTL: int := 24 * 3600

  // ------------------------------------------------------------------
  // Tables
  // ------------------------------------------------------------------

  datatype Status = Active | Revoked | Expired | Corrupted

  /**
   What happened to a row so far; not a column.  `rotations` counts committed rotations, `unsettled`
   says that no worker pass which read the row's link has written its flag since the last rotation,
   and `stale` says that the last rotation kept the previous refresh ciphertext.
   */
  datatype History = History(rotations: nat, unsettled: bool, stale: bool)

  datatype Row = Row(
    tenant: Bytes, provider: Bytes, account: Option<Bytes>,
    access: Sealed, refresh: Option<Sealed>, wdek: WrappedDek,
    refreshAt: Option<int>, refreshCount: nat, status: Status,
    ext: Option<ExtId>, syncPending: bool, leaseUntil: Option<int>,
    h: History)

  type Rows = map<RowId, Row>

  /** The unique constraint over (tenant, provider, account, status); a null account never clashes. */
  predicate Clash(r: Row, s: Row) {
    r.account.Some? && r.account == s.account && r.tenant == s.tenant && r.provider == s.provider
    && r.status == s.status
  }

  predicate UniqueOk(rows: Rows) {
    forall i, j :: i in rows && j in rows && i != j ==> !Clash(rows[i], rows[j])
  }

  datatype SagaStatus = Initiated | TokenObtained | SagaCompleted | SagaCompensated | SagaFailed

  /** `registered` is set once the initiator has put the nonce into Redis. */
  datatype Saga = Saga(tenant: Bytes, provider: Bytes, status: SagaStatus, registered: bool,
                       token: Option<RowId>, ext: Option<ExtId>)

  datatype NonceEntry = NonceEntry(tenant: Bytes, expiresAt: int)

  type Nonces = map<Nonce, NonceEntry>

  /** The key is set and has not expired. */
  predicate NoncePresent(nonces: Nonces, nonce: Nonce, now: int) {
    nonce in nonces && now < nonces[nonce].expiresAt
  }

  /** SET of the key, when it is not present; GETDEL of the key, whoever asks. */
  function SetNonce(nonces: Nonces, nonce: Nonce, tenant: Bytes, until: int): Nonces {
    nonces[nonce := NonceEntry(tenant, until)]
  }

  function GetDelNonce(nonces: Nonces, nonce: Nonce): Nonces { nonces - {nonce} }

  // ------------------------------------------------------------------
  // Sealing and opening a row
  // ------------------------------------------------------------------

  datatype Parsed = Parsed(access: Bytes, refresh: Option<Bytes>, expiresIn: Option<int>, account: Option<Bytes>)

  /** Random bytes drawn for one sealing. */
  datatype Fresh = Fresh(dek: Bytes, ivDek: Bytes, ivAccess: Bytes, ivRefresh: Bytes)

  datatype Secrets = Secrets(wdek: WrappedDek, access: Sealed, refresh: Option<Sealed>)

  /** Python truthiness of an optional string. */
  predicate Truthy(s: Option<Bytes>) { s.Some? && s.value != [] }

  function SealTokens(mk: Bytes, aad: Bytes, p: Parsed, f: Fresh): Result<Secrets, CryptoError> {
    match WrapDek(mk, f.dek, f.ivDek, aad)
    case Err(e) => Err(e)
    case Ok(w) =>
      match EncryptWithDek(p.access, f.dek, f.ivAccess, aad + SlotSuffix(AccessSlot))
      case Err(e) => Err(e)
      case Ok(a) =>
        if !Truthy(p.refresh) then Ok(Secrets(w, a, None))
        else
          match EncryptWithDek(p.refresh.value, f.dek, f.ivRefresh, aad + SlotSuffix(RefreshSlot))
          case Err(e) => Err(e)
          case Ok(r) => Ok(Secrets(w, a, Some(r)))
  }

  function OpenSlot(mk: Bytes, id: RowId, r: Row, box: Sealed, slot: Slot): Result<Bytes, CryptoError> {
    var aad := RowAad(r.tenant, r.provider, id);
    match UnwrapDek(mk, r.wdek, aad)
    case Err(e) => Err(e)
    case Ok(dek) => DecryptWithDek(box, dek, r.wdek.version, aad + SlotSuffix(slot))
  }

  function OpenAccess(mk: Bytes, id: RowId, r: Row): Result<Bytes, CryptoError> {
    OpenSlot(mk, id, r, r.access, AccessSlot)
  }

  function OpenRefresh(mk: Bytes, id: RowId, r: Row): Result<Bytes, CryptoError>
    requires r.refresh.Some?
  {
    OpenSlot(mk, id, r, r.refresh.value, RefreshSlot)
  }

  // ------------------------------------------------------------------
  // Actors
  // ------------------------------------------------------------------

  datatype CallbackPc =
    | Checked
    | Won
    | Exchanged(parsed: Parsed)
    | Persisted(id: RowId, access: Bytes)
    | Linked(id: RowId, ext: ExtId)
    | Undoing(id: RowId, ext: ExtId)
    | Compensating(id: RowId)
    | Completed(id: RowId, ext: ExtId)
    | Compensated(id: RowId)
    | Abandoned(id: RowId)
    | Failing(won: bool)
    | Failed(won: bool)

  datatype Callback = Callback(nonce: Nonce, tenant: Bytes, provider: Bytes, pc: CallbackPc, alive: bool)

  datatype Kind = FullRefresh | ApRetry

  datatype TaskPc =
    | Queued
    | Postponing
    | Loaded(row: Row)
    | Locked(row: Row)
    | Decrypted(row: Row)
    | Obtained(row: Row, parsed: Parsed)
    | Committed(row: Row, access: Bytes)
    | Pushed(row: Row, synced: bool)
    | ApLocked
    | ApLoaded(row: Row)
    | ApPushed(row: Row)
    | Marking(row: Row, status: Status)
    | Unlocking
    | Releasing
    | Done

  datatype Task = Task(id: RowId, kind: Kind, lease: int, pc: TaskPc, alive: bool) {
    /** Claimed, not crashed and not yet past its lease release. */
    predicate Live() { alive && pc != Done }
  }

  datatype Hook = Hook(provider: Bytes, account: Bytes)

  datatype World = World(
    mk: Bytes, now: int,
    rows: Rows, sagas: map<Nonce, Saga>,
    locks: map<RowId, int>, nonces: Nonces, seen: map<EventId, int>,
    conns: map<ExtId, Bytes>,
    callbacks: map<CallbackId, Callback>, tasks: map<TaskId, Task>, hooks: map<HookId, Hook>,
    // Who drew each identifier, and which random values have been drawn.
    rowOwner: map<RowId, CallbackId>, extOwner: map<ExtId, CallbackId>,
    usedNonces: set<Nonce>, usedKeys: set<Bytes>)

  function Init(mk: Bytes, now: int): World {
    World(mk, now, map[], map[], map[], map[], map[], map[], map[], map[], map[], map[], map[], {}, {})
  }

  /** A call to Activepieces may succeed, fail, or take effect and still report a failure. */
  datatype ApOutcome = ApOk | ApFailed | ApLost

  /** The same three outcomes for the registration of a nonce in Redis. */
  datatype RegOutcome = RegOk | RegFailed | RegLost

  datatype ProviderReply = Granted(parsed: Parsed) | Terminal | Transient

  datatype CallbackOp =
    | Consume
    | Exchange(reply: Option<Parsed>)
    | Persist(id: RowId, rand: Fresh, commit: bool)
    | Link(ext: ExtId, outcome: ApOutcome)
    | Finalize(commit: bool)
    | Undo(commit: bool)
    | Compensate(commit: bool)
    | MarkFailed(commit: bool)
    | CallbackCrash

  datatype TaskOp =
    | Load
    | Postpone(commit: bool)
    | Lock
    | Decrypt
    | AskProvider(answer: ProviderReply)
    | Rotate(rand: Fresh, commit: bool)
    | Push(outcome: ApOutcome)
    | Flag(commit: bool)
    | Mark(commit: bool)
    | Raise
    | Unlock(commit: bool)
    | Release(commit: bool)
    | TaskCrash

  datatype Event =
    | Tick(seconds: nat)
    | Initiate(nonce: Nonce, tenant: Bytes, provider: Bytes)
    | Register(nonce: Nonce, reg: RegOutcome)
    | Denied(nonce: Nonce)
    | Arrive(cb: CallbackId, nonce: Nonce, tenant: Bytes, provider: Bytes)
    | Front(cb: CallbackId, cop: CallbackOp)
    | Claim(at: int, limit: nat, ids: map<TaskId, RowId>)
    | Work(t: TaskId, op: TaskOp)
    | Deliver(hook: HookId, eid: Option<EventId>, provider: Bytes, account: Bytes)
    | Revoke(hook: HookId, commit: bool)

  // ------------------------------------------------------------------
  // Transactions on the token table
  // ------------------------------------------------------------------

  /** The two reasons a row needs work, and the requirement that no unexpired lease covers it. */
  predicate NeedsFull(r: Row, at: int) { r.refreshAt.Some? && r.refreshAt.value <= at }

  predicate Claimable(r: Row, at: int) {
    r.status == Active && (NeedsFull(r, at) || r.syncPending)
    && (r.leaseUntil.None? || r.leaseUntil.value < at)
  }

  function StampLease(rows: Rows, ids: set<RowId>, until: int): Rows {
    map id | id in rows :: if id in ids then rows[id].(leaseUntil := Some(until)) else rows[id]
  }

  /** Soft revocation of every active row of one account of one provider. */
  predicate Targeted(r: Row, provider: Bytes, account: Bytes) {
    r.provider == provider && r.account == Some(account) && r.status == Active
  }

  function RevokeAccount(rows: Rows, provider: Bytes, account: Bytes): Rows {
    map id | id in rows ::
      if Targeted(rows[id], provider, account) then rows[id].(status := Revoked) else rows[id]
  }

  /** What a re-authorization does to the previous row of the same tenant and account. */
  function RevokePrevious(rows: Rows, tenant: Bytes, provider: Bytes, account: Option<Bytes>): Rows {
    if !Truthy(account) then rows
    else
      map id | id in rows ::
        if rows[id].tenant == tenant && Targeted(rows[id], provider, account.value)
        then rows[id].(status := Revoked) else rows[id]
  }

  function RefreshTime(now: int, expiresIn: Option<int>): Option<int> {
    if expiresIn.None? || expiresIn.value == 0 then None
    else Some(now + expiresIn.value - REFRESH_MARGIN_SECONDS)
  }

  function NewRow(now: int, tenant: Bytes, provider: Bytes, p: Parsed, s: Secrets): Row {
    Row(tenant, provider, p.account, s.access, s.refresh, s.wdek,
        RefreshTime(now, p.expiresIn), 0, Active, None, false, None, History(0, false, false))
  }

  function InsertToken(rows: Rows, id: RowId, r: Row): Rows {
    RevokePrevious(rows, r.tenant, r.provider, r.account)[id := r]
  }

  /** The rotation of a row by a task that read it as `was`. */
  function RotateRow(r: Row, was: Row, s: Secrets, refreshAt: Option<int>): Row {
    r.(access := s.access,
       refresh := if s.refresh.Some? then s.refresh else was.refresh,
       wdek := s.wdek, refreshAt := refreshAt, refreshCount := was.refreshCount + 1,
       h := History(r.h.rotations + 1, true, s.refresh.None?))
  }

  /** UPDATE ... WHERE id = ...: no effect when the row is gone. */
  function Update(rows: Rows, id: RowId, f: Row -> Row): Rows {
    if id in rows then rows[id := f(rows[id])] else rows
  }

  /** A commit that would break the unique constraint aborts. */
  ghost predicate Commits(before: Rows, wanted: Rows, after: Rows, commit: bool) {
    after == (if commit && UniqueOk(wanted) then wanted else before)
  }

  // ------------------------------------------------------------------
  // Callback steps
  // ------------------------------------------------------------------

  predicate CallbackAt(w: World, cb: CallbackId) { cb in w.callbacks && w.callbacks[cb].alive }

  function SetCallback(w: World, cb: CallbackId, pc: CallbackPc): World
    requires cb in w.callbacks
  {
    w.(callbacks := w.callbacks[cb := w.callbacks[cb].(pc := pc)])
  }

  function SetSaga(sagas: map<Nonce, Saga>, nonce: Nonce, f: Saga -> Saga): map<Nonce, Saga> {
    if nonce in sagas then sagas[nonce := f(sagas[nonce])] else sagas
  }

  function FailSaga(sagas: map<Nonce, Saga>, nonce: Nonce): map<Nonce, Saga> {
    SetSaga(sagas, nonce, (s: Saga) => s.(status := SagaFailed))
  }

  ghost predicate InitiateStep(w: World, w': World, nonce: Nonce, tenant: Bytes, provider: Bytes) {
    && nonce !in w.usedNonces && nonce != [] && tenant != [] && BAR !in provider
    && w' == w.(sagas := w.sagas[nonce := Saga(tenant, provider, Initiated, false, None, None)],
                usedNonces := w.usedNonces + {nonce})
  }

  /** SET NX EX of the nonce; when it fails the saga row is rolled back. */
  ghost predicate RegisterStep(w: World, w': World, nonce: Nonce, reg: RegOutcome) {
    && nonce in w.sagas && !w.sagas[nonce].registered
    && (reg != RegFailed ==> !NoncePresent(w.nonces, nonce, w.now))
    && var noted := SetNonce(w.nonces, nonce, w.sagas[nonce].tenant, w.now + STATE_TTL_SECONDS);
       && w' == w.(sagas := if reg == RegOk then w.sagas[nonce := w.sagas[nonce].(registered := true)]
                            else w.sagas - {nonce},
                   nonces := if reg == RegFailed then w.nonces else noted)
  }

  /** A callback whose state token verified and whose saga row checks out. */
  ghost predicate ArriveStep(w: World, w': World, cb: CallbackId, nonce: Nonce, tenant: Bytes, provider: Bytes) {
    && cb !in w.callbacks && nonce in w.sagas
    && w.sagas[nonce].tenant == tenant && w.sagas[nonce].provider == provider
    && w.sagas[nonce].status == Initiated
    && w' == w.(callbacks := w.callbacks[cb := Callback(nonce, tenant, provider, Checked, true)])
  }

  /** GETDEL of the nonce, then the tenant comparison. */
  ghost predicate ConsumeStep(w: World, w': World, cb: CallbackId) {
    && CallbackAt(w, cb) && w.callbacks[cb].pc.Checked?
    && var c := w.callbacks[cb];
       var found := NoncePresent(w.nonces, c.nonce, w.now);
       var pc := if found && w.nonces[c.nonce].tenant == c.tenant then Won else Failing(false);
       w' == SetCallback(w, cb, pc).(nonces := GetDelNonce(w.nonces, c.nonce))
  }

  ghost predicate ExchangeStep(w: World, w': World, cb: CallbackId, reply: Option<Parsed>) {
    && CallbackAt(w, cb) && w.callbacks[cb].pc.Won?
    && w' == SetCallback(w, cb, if reply.Some? then Exchanged(reply.value) else Failing(true))
  }

  /** Randomness is assumed not to repeat: data keys are new. */
  predicate FreshKey(w: World, f: Fresh) {
    f.dek !in w.usedKeys && |f.dek| == DEK_BYTES
    && |f.ivDek| == |f.ivAccess| == |f.ivRefresh| == GCM_IV_BYTES
  }

  /** The transaction of a successful code exchange, and its abort. */
  ghost predicate PersistStep(w: World, w': World, cb: CallbackId, id: RowId, f: Fresh, commit: bool) {
    && CallbackAt(w, cb) && w.callbacks[cb].pc.Exchanged?
    && id !in w.rowOwner && BAR !in id && FreshKey(w, f)
    && var c := w.callbacks[cb];
       var p := c.pc.parsed;
       var s := SealTokens(w.mk, RowAad(c.tenant, c.provider, id), p, f);
       var ok := s.Ok? && commit && UniqueOk(InsertToken(w.rows, id, NewRow(w.now, c.tenant, c.provider, p, s.value)));
       w' == SetCallback(w, cb, if ok then Persisted(id, p.access) else Failing(true))
             .(rows := if ok then InsertToken(w.rows, id, NewRow(w.now, c.tenant, c.provider, p, s.value)) else w.rows,
               sagas := if ok
                        then SetSaga(w.sagas, c.nonce, (g: Saga) => g.(status := TokenObtained, token := Some(id)))
                        else w.sagas,
               rowOwner := if ok then w.rowOwner[id := cb] else w.rowOwner,
               usedKeys := w.usedKeys + {f.dek})
  }

  ghost predicate LinkStep(w: World, w': World, cb: CallbackId, ext: ExtId, outcome: ApOutcome) {
    && CallbackAt(w, cb) && w.callbacks[cb].pc.Persisted? && ext !in w.extOwner
    && var pc := w.callbacks[cb].pc;
       w' == SetCallback(w, cb, if outcome == ApOk then Linked(pc.id, ext) else Compensating(pc.id))
             .(conns := Upsert(w.conns, ext, pc.access, outcome),
               extOwner := w.extOwner[ext := cb])
  }

  ghost predicate FinalizeStep(w: World, w': World, cb: CallbackId, commit: bool) {
    && CallbackAt(w, cb) && w.callbacks[cb].pc.Linked?
    && var c := w.callbacks[cb];
       var id, ext := c.pc.id, c.pc.ext;
       w' == SetCallback(w, cb, if commit then Completed(id, ext) else Undoing(id, ext))
             .(rows := if commit && id in w.rows then w.rows[id := w.rows[id].(ext := Some(ext))] else w.rows,
               sagas := if commit
                        then SetSaga(w.sagas, c.nonce, (g: Saga) => g.(status := SagaCompleted, ext := Some(ext)))
                        else w.sagas)
  }

  /** Best-effort deletion of the Activepieces connection after a failed finalize. */
  ghost predicate UndoStep(w: World, w': World, cb: CallbackId, commit: bool) {
    && CallbackAt(w, cb) && w.callbacks[cb].pc.Undoing?
    && var pc := w.callbacks[cb].pc;
       w' == SetCallback(w, cb, Compensating(pc.id)).(conns := if commit then w.conns - {pc.ext} else w.conns)
  }

  ghost predicate CompensateStep(w: World, w': World, cb: CallbackId, commit: bool) {
    && CallbackAt(w, cb) && w.callbacks[cb].pc.Compensating?
    && var c := w.callbacks[cb];
       w' == SetCallback(w, cb, if commit then Compensated(c.pc.id) else Abandoned(c.pc.id))
             .(rows := if commit then w.rows - {c.pc.id} else w.rows,
               sagas := if commit
                        then SetSaga(w.sagas, c.nonce, (g: Saga) => g.(status := SagaCompensated, token := None))
                        else w.sagas)
  }

  ghost predicate MarkFailedStep(w: World, w': World, cb: CallbackId, commit: bool) {
    && CallbackAt(w, cb) && w.callbacks[cb].pc.Failing?
    && var c := w.callbacks[cb];
       w' == SetCallback(w, cb, Failed(c.pc.won)).(sagas := if commit then FailSaga(w.sagas, c.nonce) else w.sagas)
  }

  ghost predicate CallbackCrashStep(w: World, w': World, cb: CallbackId) {
    CallbackAt(w, cb) && w' == w.(callbacks := w.callbacks[cb := w.callbacks[cb].(alive := false)])
  }

  /** A provider-side denial names its saga without a verified state token. */
  ghost predicate DeniedStep(w: World, w': World, nonce: Nonce) {
    w' == w.(sagas := FailSaga(w.sagas, nonce))
  }

  // ------------------------------------------------------------------
  // Worker steps
  // ------------------------------------------------------------------

  predicate TaskAt(w: World, t: TaskId) { t in w.tasks && w.tasks[t].Live() }

  function SetTask(w: World, t: TaskId, pc: TaskPc): World
    requires t in w.tasks
  {
    w.(tasks := w.tasks[t := w.tasks[t].(pc := pc)])
  }

  ghost predicate ClaimOk(w: World, at: int, limit: nat, ids: map<TaskId, RowId>) {
    && at <= w.now
    && |ids| <= limit
    && (forall t :: t in ids ==> t !in w.tasks && ids[t] in w.rows && Claimable(w.rows[ids[t]], at))
    && (forall t, u :: t in ids && u in ids && t != u ==> ids[t] != ids[u])
  }

  function ClaimedTasks(w: World, at: int, ids: map<TaskId, RowId>): map<TaskId, Task>
    requires forall t :: t in ids ==> ids[t] in w.rows
  {
    map t | t in ids ::
      Task(ids[t], if NeedsFull(w.rows[ids[t]], at) then FullRefresh else ApRetry,
           at + REFRESH_LEASE_TTL_SECONDS, Queued, true)
  }

  /**
   SELECT ... FOR UPDATE SKIP LOCKED with the lease stamp, in one transaction.  `at` is the clock
   reading taken before the transaction; the batch is any set of claimable rows within the limit.
   */
  ghost predicate ClaimStep(w: World, w': World, at: int, limit: nat, ids: map<TaskId, RowId>) {
    && ClaimOk(w, at, limit, ids)
    && w' == w.(tasks := w.tasks + ClaimedTasks(w, at, ids),
                rows := StampLease(w.rows, ids.Values, at + REFRESH_LEASE_TTL_SECONDS))
  }

  /** Reading the row: before the lock on the full path, after it on the AP-only path. */
  function PcAfterLoad(k: Task, rows: Rows): TaskPc
    requires (k.pc.Queued? && k.kind == FullRefresh) || k.pc.ApLocked?
  {
    var found := k.id in rows && rows[k.id].status == Active;
    if k.pc.Queued? then
      if !found then Releasing else if rows[k.id].refresh.None? then Postponing else Loaded(rows[k.id])
    else if !found || !rows[k.id].syncPending then Unlocking
    else if rows[k.id].ext.None? then ApPushed(rows[k.id])
    else ApLoaded(rows[k.id])
  }

  ghost predicate LoadStep(w: World, w': World, t: TaskId) {
    && TaskAt(w, t)
    && var k := w.tasks[t];
       && ((k.pc.Queued? && k.kind == FullRefresh) || k.pc.ApLocked?)
       && w' == SetTask(w, t, PcAfterLoad(k, w.rows))
  }

  /** A row with no refresh token is not polled again for a year; its own transaction. */
  ghost predicate PostponeStep(w: World, w': World, t: TaskId, commit: bool) {
    && TaskAt(w, t) && w.tasks[t].pc.Postponing?
    && var id := w.tasks[t].id;
       w' == SetTask(w, t, Releasing)
             .(rows := if commit && id in w.rows
                       then w.rows[id := w.rows[id].(refreshAt := Some(w.now + NO_REFRESH_DELAY_SECONDS))]
                       else w.rows)
  }

  /** SET NX EX on the per-token Redis key. */
  ghost predicate LockStep(w: World, w': World, t: TaskId) {
    && TaskAt(w, t)
    && var k := w.tasks[t];
       && (k.pc.Loaded? || (k.pc.Queued? && k.kind == ApRetry))
       && var held := k.id in w.locks && w.now < w.locks[k.id];
          w' == SetTask(w, t, if held then Releasing else if k.pc.Loaded? then Locked(k.pc.row) else ApLocked)
                .(locks := if held then w.locks else w.locks[k.id := w.now + REFRESH_LOCK_TTL])
  }

  ghost predicate DecryptStep(w: World, w': World, t: TaskId) {
    && TaskAt(w, t) && w.tasks[t].pc.Locked?
    && var k := w.tasks[t];
       var was := k.pc.row;
       w' == SetTask(w, t, if was.refresh.Some? && OpenRefresh(w.mk, k.id, was).Ok? then Decrypted(was)
                           else Marking(was, Corrupted))
  }

  ghost predicate AskProviderStep(w: World, w': World, t: TaskId, answer: ProviderReply) {
    && TaskAt(w, t) && w.tasks[t].pc.Decrypted?
    && var was := w.tasks[t].pc.row;
       w' == SetTask(w, t, match answer
                           case Granted(p) => Obtained(was, p)
                           case Terminal => Marking(was, Revoked)
                           case Transient => Unlocking)
  }

  /** Fresh key, both slots sealed again, one UPDATE by id whatever the row's status is by now. */
  ghost predicate RotateStep(w: World, w': World, t: TaskId, f: Fresh, commit: bool) {
    && TaskAt(w, t) && w.tasks[t].pc.Obtained? && FreshKey(w, f)
    && var k := w.tasks[t];
       var was, p := k.pc.row, k.pc.parsed;
       var s := SealTokens(w.mk, RowAad(was.tenant, was.provider, k.id), p, f);
       var ok := s.Ok? && commit;
       w' == SetTask(w, t, if ok then Committed(was, p.access) else Unlocking)
             .(rows := if ok && k.id in w.rows
                       then w.rows[k.id := RotateRow(w.rows[k.id], was, s.value, RefreshTime(w.now, p.expiresIn))]
                       else w.rows,
               usedKeys := w.usedKeys + {f.dek})
  }

  function Upsert(conns: map<ExtId, Bytes>, ext: ExtId, value: Bytes, outcome: ApOutcome): map<ExtId, Bytes> {
    if outcome == ApFailed then conns else conns[ext := value]
  }

  /** A full pass goes on whatever the upsert did; an AP-only pass goes on only when it succeeded. */
  function PcAfterPush(pc: TaskPc, readable: bool, outcome: ApOutcome): TaskPc
    requires pc.Committed? || pc.ApLoaded?
  {
    if pc.Committed? then Pushed(pc.row, pc.row.ext.None? || outcome == ApOk)
    else if readable && outcome == ApOk then ApPushed(pc.row)
    else Unlocking
  }

  /** The Activepieces upsert of the full path and of the AP-only path. */
  ghost predicate PushStep(w: World, w': World, t: TaskId, outcome: ApOutcome) {
    && TaskAt(w, t)
    && var k := w.tasks[t];
       && (k.pc.Committed? || k.pc.ApLoaded?)
       && var access := if k.pc.Committed? then Ok(k.pc.access) else OpenAccess(w.mk, k.id, k.pc.row);
          var ext := k.pc.row.ext;
          w' == SetTask(w, t, PcAfterPush(k.pc, access.Ok?, outcome))
                .(conns := if ext.Some? && access.Ok? then Upsert(w.conns, ext.value, access.value, outcome)
                           else w.conns)
  }

  /** The flag write of a pass that read the row as `was`. */
  function FlagRow(r: Row, was: Row, pending: bool): Row {
    r.(syncPending := pending, h := r.h.(unsettled := r.h.unsettled && was.ext.None?))
  }

  ghost predicate FlagStep(w: World, w': World, t: TaskId, commit: bool) {
    && TaskAt(w, t) && (w.tasks[t].pc.Pushed? || w.tasks[t].pc.ApPushed?)
    && var k := w.tasks[t];
       var pending := k.pc.Pushed? && !k.pc.synced;
       w' == SetTask(w, t, Unlocking)
             .(rows := if commit && k.id in w.rows
                       then w.rows[k.id := FlagRow(w.rows[k.id], k.pc.row, pending)] else w.rows)
  }

  ghost predicate MarkStep(w: World, w': World, t: TaskId, commit: bool) {
    && TaskAt(w, t) && w.tasks[t].pc.Marking?
    && var k := w.tasks[t];
       && w' == SetTask(w, t, Unlocking).(rows := w'.rows)
       && Commits(w.rows, Update(w.rows, k.id, (r: Row) => r.(status := k.pc.status)), w'.rows, commit)
  }

  predicate HoldsLock(pc: TaskPc) {
    !(pc.Queued? || pc.Postponing? || pc.Loaded? || pc.Releasing? || pc.Done?)
  }

  /** An exception unwinds to the lock release, or to the lease release when no lock is held. */
  ghost predicate RaiseStep(w: World, w': World, t: TaskId) {
    && TaskAt(w, t)
    && w' == SetTask(w, t, if HoldsLock(w.tasks[t].pc) then Unlocking else Releasing)
  }

  /** DEL of the Redis key, whoever holds it. */
  ghost predicate UnlockStep(w: World, w': World, t: TaskId, commit: bool) {
    && TaskAt(w, t) && w.tasks[t].pc.Unlocking?
    && w' == SetTask(w, t, Releasing).(locks := if commit then w.locks - {w.tasks[t].id} else w.locks)
  }

  /** UPDATE ... SET processing_until = NULL, whoever holds the lease. */
  ghost predicate ReleaseStep(w: World, w': World, t: TaskId, commit: bool) {
    && TaskAt(w, t) && w.tasks[t].pc.Releasing?
    && var id := w.tasks[t].id;
       w' == SetTask(w, t, Done)
             .(rows := if commit && id in w.rows then w.rows[id := w.rows[id].(leaseUntil := None)] else w.rows)
  }

  ghost predicate TaskCrashStep(w: World, w': World, t: TaskId) {
    TaskAt(w, t) && w' == w.(tasks := w.tasks[t := w.tasks[t].(alive := false)])
  }

  ghost predicate TickStep(w: World, w': World, seconds: nat) {
    w' == w.(now := w.now + seconds)
  }

  // ------------------------------------------------------------------
  // Webhook steps
  // ------------------------------------------------------------------

  predicate Duplicate(w: World, eid: Option<EventId>) {
    eid.Some? && eid.value in w.seen && w.now < w.seen[eid.value]
  }

  /** SET NX EX of the event id; only the first delivery goes on to revoke, and only for a named account. */
  ghost predicate DeliverStep(w: World, w': World, hook: HookId,
                              eid: Option<EventId>, provider: Bytes, account: Bytes) {
    && hook !in w.hooks
    && var first := !Duplicate(w, eid);
       w' == w.(seen := if first && eid.Some? then w.seen[eid.value := w.now + EVENT_DEDUPE_TTL] else w.seen,
                hooks := if first && account != [] then w.hooks[hook := Hook(provider, account)] else w.hooks)
  }

  ghost predicate RevokeStep(w: World, w': World, hook: HookId, commit: bool) {
    && hook in w.hooks
    && var k := w.hooks[hook];
       && w' == w.(hooks := w.hooks - {hook}, rows := w'.rows)
       && Commits(w.rows, RevokeAccount(w.rows, k.provider, k.account), w'.rows, commit)
  }

  // ------------------------------------------------------------------
  // The transition relation and runs
  // ------------------------------------------------------------------

  ghost predicate CallbackNext(w: World, w': World, cb: CallbackId, op: CallbackOp) {
    match op
    case Consume => ConsumeStep(w, w', cb)
    case Exchange(reply) => ExchangeStep(w, w', cb, reply)
    case Persist(id, f, commit) => PersistStep(w, w', cb, id, f, commit)
    case Link(ext, outcome) => LinkStep(w, w', cb, ext, outcome)
    case Finalize(commit) => FinalizeStep(w, w', cb, commit)
    case Undo(commit) => UndoStep(w, w', cb, commit)
    case Compensate(commit) => CompensateStep(w, w', cb, commit)
    case MarkFailed(commit) => MarkFailedStep(w, w', cb, commit)
    case CallbackCrash => CallbackCrashStep(w, w', cb)
  }

  ghost predicate TaskNext(w: World, w': World, t: TaskId, op: TaskOp) {
    match op
    case Load => LoadStep(w, w', t)
    case Postpone(commit) => PostponeStep(w, w', t, commit)
    case Lock => LockStep(w, w', t)
    case Decrypt => DecryptStep(w, w', t)
    case AskProvider(answer) => AskProviderStep(w, w', t, answer)
    case Rotate(f, commit) => RotateStep(w, w', t, f, commit)
    case Push(outcome) => PushStep(w, w', t, outcome)
    case Flag(commit) => FlagStep(w, w', t, commit)
    case Mark(commit) => MarkStep(w, w', t, commit)
    case Raise => RaiseStep(w, w', t)
    case Unlock(commit) => UnlockStep(w, w', t, commit)
    case Release(commit) => ReleaseStep(w, w', t, commit)
    case TaskCrash => TaskCrashStep(w, w', t)
  }

  ghost predicate Next(w: World, w': World, e: Event) {
    match e
    case Tick(d) => TickStep(w, w', d)
    case Initiate(n, tenant, provider) => InitiateStep(w, w', n, tenant, provider)
    case Register(n, reg) => RegisterStep(w, w', n, reg)
    case Denied(n) => DeniedStep(w, w', n)
    case Arrive(cb, n, tenant, provider) => ArriveStep(w, w', cb, n, tenant, provider)
    case Front(cb, cop) => CallbackAt(w, cb) && CallbackNext(w, w', cb, cop)
    case Claim(at, limit, ids) => ClaimStep(w, w', at, limit, ids)
    case Work(t, op) => TaskAt(w, t) && TaskNext(w, w', t, op)
    case Deliver(hook, eid, provider, account) => DeliverStep(w, w', hook, eid, provider, account)
    case Revoke(hook, commit) => RevokeStep(w, w', hook, commit)
  }

  /** A run: worlds ws[0], ws[1], ... joined by events. */
  ghost predicate IsRun(ws: seq<World>, es: seq<Event>) {
    && |ws| == |es| + 1
    && ws[0] == Init(ws[0].mk, ws[0].now)
    && forall k {:trigger es[k]} :: 0 <= k < |es| ==> Next(ws[k], ws[k + 1], es[k])
  }

  /** The timing hypothesis: no live task has outlived its lease. */
  ghost predicate Timely(w: World) {
    forall t :: t in w.tasks && w.tasks[t].Live() ==> w.now <= w.tasks[t].lease
  }
}
