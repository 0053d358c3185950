/**
 That the promised outcomes are reached: from any world that fits, an authorization, a refresh and a
 retry in which nothing fails run to their end, and what they leave behind.
 */
module VaultSuccess {
  import opened Wrappers
  import opened Envelope
  import opened Vault
  import opened VaultFrames
  import opened VaultStatus
  import opened VaultSecrets
  import opened VaultSync
  import opened VaultDue
  import opened VaultScenarios

  /** These events, one after the other, lead from the one world to the other. */
  ghost predicate Leads(w: World, es: seq<Event>, w': World)
    decreases |es|
  {
    if es == [] then w' == w else exists v :: Next(w, v, es[0]) && Leads(v, es[1..], w')
  }

  lemma Before(w: World, e: Event, v: World, es: seq<Event>, w': World)
    requires Next(w, v, e) && Leads(v, es, w')
    ensures Leads(w, [e] + es, w')
  {
    assert ([e] + es)[1..] == es;
  }

  lemma BeforeWork(w: World, t: TaskId, op: TaskOp, v: World, es: seq<Event>, w': World)
    requires TaskAt(w, t) && TaskNext(w, v, t, op) && Leads(v, es, w')
    ensures Leads(w, [Work(t, op)] + es, w')
  {
    Before(w, Work(t, op), v, es, w');
  }

  lemma BeforeFront(w: World, cb: CallbackId, op: CallbackOp, v: World, es: seq<Event>, w': World)
    requires CallbackAt(w, cb) && CallbackNext(w, v, cb, op) && Leads(v, es, w')
    ensures Leads(w, [Front(cb, op)] + es, w')
  {
    Before(w, Front(cb, op), v, es, w');
  }

  // ------------------------------------------------------------------
  // A refresh
  // ------------------------------------------------------------------

  function RefreshEvents(w: World, ids: map<TaskId, RowId>, t: TaskId, q: Parsed, f: Fresh): seq<Event> {
    [Claim(w.now, 1, ids)] + ReadingEvents(t, q, RotationEvents(t, f))
  }

  function ReadingEvents(t: TaskId, q: Parsed, es: seq<Event>): seq<Event> {
    [Work(t, Load)] + ([Work(t, Lock)] + ([Work(t, Decrypt)] + ([Work(t, AskProvider(Granted(q)))] + es)))
  }

  function RotationEvents(t: TaskId, f: Fresh): seq<Event> { [Work(t, Rotate(f, true))] + DeliveryEvents(t) }

  function DeliveryEvents(t: TaskId): seq<Event> { [Work(t, Push(ApOk))] + ([Work(t, Flag(true))] + ReleaseEvents(t)) }

  function ReleaseEvents(t: TaskId): seq<Event> { [Work(t, Unlock(true))] + ([Work(t, Release(true))] + []) }

  /** The row as the provider's answer makes it, in sync, free, and due again in time. */
  ghost predicate RowRefreshed(w: World, w': World, id: RowId, q: Parsed) {
    && id in w.rows && id in w'.rows
    && var r0, r := w.rows[id], w'.rows[id];
       && OpenAccess(w'.mk, id, r) == Ok(q.access)
       && (Truthy(q.refresh) ==> r.refresh.Some? && OpenRefresh(w'.mk, id, r) == Ok(q.refresh.value))
       && r.refreshCount == r0.refreshCount + 1 && (forall at :: DueFor(r, w.now, q.expiresIn, at))
       && SameIdentity(r0, r) && r.status == Active && r.ext == r0.ext && !r.syncPending && r.leaseUntil.None?
  }

  /** Its connection holds the token, its key is gone, its task is done, and nothing else is touched. */
  ghost predicate RestKept(w: World, w': World, t: TaskId, id: RowId, access: Bytes) {
    && id in w.rows
    && var ext := w.rows[id].ext;
       && (ext.Some? ==> Holds(w', ext.value, access))
       && (forall x :: ext != Some(x) ==>
             (x in w'.conns <==> x in w.conns) && (x in w.conns ==> w'.conns[x] == w.conns[x]))
       && (forall j :: j != id ==> (j in w'.rows <==> j in w.rows) && (j in w.rows ==> w'.rows[j] == w.rows[j]))
       && id !in w'.locks && t in w'.tasks && w'.tasks[t].pc == Done
  }

  ghost predicate Refreshed(w: World, w': World, t: TaskId, id: RowId, q: Parsed) {
    RowRefreshed(w, w', id, q) && RestKept(w, w', t, id, q.access)
  }

  /** Unlocking and releasing. */
  function Freed(w: World, t: TaskId): World
    requires t in w.tasks && w.tasks[t].id in w.rows
  {
    var id := w.tasks[t].id;
    SetTask(w, t, Done).(locks := w.locks - {id}, rows := w.rows[id := w.rows[id].(leaseUntil := None)])
  }

  function Unlocked(w: World, t: TaskId): World
    requires t in w.tasks
  {
    SetTask(w, t, Releasing).(locks := w.locks - {w.tasks[t].id})
  }

  lemma FreedSteps(w: World, t: TaskId)
    requires TaskAt(w, t) && w.tasks[t].pc == Unlocking && w.tasks[t].id in w.rows
    ensures UnlockStep(w, Unlocked(w, t), t, true) && ReleaseStep(Unlocked(w, t), Freed(w, t), t, true)
  {
    var v := Unlocked(w, t);
    assert Freed(w, t).tasks == v.tasks[t := v.tasks[t].(pc := Done)];
  }

  lemma FreedLeads(w: World, t: TaskId)
    requires TaskAt(w, t) && w.tasks[t].pc == Unlocking && w.tasks[t].id in w.rows
    ensures Leads(w, ReleaseEvents(t), Freed(w, t))
  {
    var v := Unlocked(w, t);
    FreedSteps(w, t);
    BeforeWork(v, t, Release(true), Freed(w, t), [], Freed(w, t));
    BeforeWork(w, t, Unlock(true), v, [Work(t, Release(true))] + [], Freed(w, t));
  }

  /** After a push that succeeds: the flag is cleared, and the row freed. */
  function Flagged(w: World, t: TaskId, was: Row): World
    requires t in w.tasks && w.tasks[t].id in w.rows
  {
    var id := w.tasks[t].id;
    SetTask(w, t, Unlocking).(rows := w.rows[id := FlagRow(w.rows[id], was, false)])
  }

  function Pushed1(w: World, t: TaskId, access: Bytes, ext: Option<ExtId>, pc: TaskPc): World
    requires t in w.tasks
  {
    SetTask(w, t, pc).(conns := if ext.Some? then w.conns[ext.value := access] else w.conns)
  }

  lemma DeliveryLeads(w: World, t: TaskId) returns (w': World)
    requires TaskAt(w, t) && w.tasks[t].pc.Committed? && w.tasks[t].id in w.rows
    ensures var k := w.tasks[t];
            w' == Freed(Flagged(Pushed1(w, t, k.pc.access, k.pc.row.ext, Pushed(k.pc.row, true)), t, k.pc.row), t)
    ensures Leads(w, DeliveryEvents(t), w')
  {
    var k := w.tasks[t];
    var was := k.pc.row;
    var v := Pushed1(w, t, k.pc.access, was.ext, Pushed(was, true));
    var u := Flagged(v, t, was);
    w' := Freed(u, t);
    assert PushStep(w, v, t, ApOk);
    assert FlagStep(v, u, t, true);
    FreedLeads(u, t);
    BeforeWork(v, t, Flag(true), u, ReleaseEvents(t), w');
    BeforeWork(w, t, Push(ApOk), v, [Work(t, Flag(true))] + ReleaseEvents(t), w');
  }

  lemma RotationLeads(w: World, t: TaskId, f: Fresh) returns (w': World)
    requires TaskAt(w, t) && w.tasks[t].pc.Obtained? && w.tasks[t].id in w.rows && FreshKey(w, f)
    ensures Leads(w, RotationEvents(t, f), w')
    ensures var v := Rotated(w, t, f);
            var k := w.tasks[t];
            var was := k.pc.row;
            w' == Freed(Flagged(Pushed1(v, t, k.pc.parsed.access, was.ext, Pushed(was, true)), t, was), t)
  {
    var v := Rotated(w, t, f);
    RotateFits(w, t, f);
    w' := DeliveryLeads(v, t);
    BeforeWork(w, t, Rotate(f, true), v, DeliveryEvents(t), w');
  }

  lemma ObtainLeads(w: World, t: TaskId, id: RowId, q: Parsed, es: seq<Event>, w': World)
    requires Ready(w, t, id) && Leads(LockedBy(w, t, id, Obtained(Held(w, id), q)), es, w')
    ensures Leads(Claimed(w, t, id, Queued), ReadingEvents(t, q, es), w')
  {
    var r := Held(w, id);
    LoadFits(w, t, id);
    DecryptFits(w, t, id);
    AskFits(w, t, id, q);
    var es1 := [Work(t, AskProvider(Granted(q)))] + es;
    BeforeWork(LockedBy(w, t, id, Decrypted(r)), t, AskProvider(Granted(q)), LockedBy(w, t, id, Obtained(r, q)),
               es, w');
    BeforeWork(LockedBy(w, t, id, Locked(r)), t, Decrypt, LockedBy(w, t, id, Decrypted(r)), es1, w');
    BeforeWork(Claimed(w, t, id, Loaded(r)), t, Lock, LockedBy(w, t, id, Locked(r)), [Work(t, Decrypt)] + es1, w');
    BeforeWork(Claimed(w, t, id, Queued), t, Load, Claimed(w, t, id, Loaded(r)),
               [Work(t, Lock)] + ([Work(t, Decrypt)] + es1), w');
  }

  /**
   From every world in which the row is due and free and its refresh token opens, whatever the other
   actors are doing: a pass in which nothing fails ends with the row refreshed.
   */
  lemma RefreshSucceeds(w: World, t: TaskId, id: RowId, q: Parsed, f: Fresh)
    returns (ids: map<TaskId, RowId>, w': World)
    requires Ready(w, t, id) && FreshKey(w, f)
    ensures ids == map[t := id] && Leads(w, RefreshEvents(w, ids, t, q, f), w') && Refreshed(w, w', t, id, q)
  {
    w' := RotationLeads(LockedBy(w, t, id, Obtained(Held(w, id), q)), t, f);
    ObtainLeads(w, t, id, q, RotationEvents(t, f), w');
    ids := ClaimLeads(w, t, id, ReadingEvents(t, q, RotationEvents(t, f)), w');
    RefreshedAtEnd(w, w', t, id, q, f);
  }

  lemma ClaimLeads(w: World, t: TaskId, id: RowId, es: seq<Event>, w': World) returns (ids: map<TaskId, RowId>)
    requires Ready(w, t, id) && Leads(Claimed(w, t, id, Queued), es, w')
    ensures ids == map[t := id] && Leads(w, [Claim(w.now, 1, ids)] + es, w')
  {
    ids := ClaimFits(w, t, id);
    Before(w, Claim(w.now, 1, ids), Claimed(w, t, id, Queued), es, w');
  }

  lemma RefreshedAtEnd(w: World, w': World, t: TaskId, id: RowId, q: Parsed, f: Fresh)
    requires Ready(w, t, id) && FreshKey(w, f)
    requires var v := LockedBy(w, t, id, Obtained(Held(w, id), q));
             var was := Held(w, id);
             w' == Freed(Flagged(Pushed1(Rotated(v, t, f), t, q.access, was.ext, Pushed(was, true)), t, was), t)
    ensures Refreshed(w, w', t, id, q)
  {
    var v := LockedBy(w, t, id, Obtained(Held(w, id), q));
    assert w'.mk == w.mk && id in w'.rows;
    assert w'.rows[id] == Delivered(RotatedRow(v, t, f), Held(w, id));
    RestAtEnd(w, Rotated(v, t, f), t, id, q.access, Pushed(Held(w, id), true));
    RowAtEnd(w, w', v, t, id, q, f);
  }

  lemma RestAtEnd(w: World, v: World, t: TaskId, id: RowId, access: Bytes, pc: TaskPc)
    requires id in w.rows && id in v.rows && v.conns == w.conns && v.rows == w.rows[id := v.rows[id]]
    requires t in v.tasks && v.tasks[t].id == id && v.locks == w.locks[id := w.now + REFRESH_LOCK_TTL]
    ensures var was := Held(w, id);
            RestKept(w, Freed(Flagged(Pushed1(v, t, access, was.ext, pc), t, was), t), t, id, access)
  {
  }

  /** The row after its flag has been cleared and its lease released. */
  function Delivered(r: Row, was: Row): Row { FlagRow(r, was, false).(leaseUntil := None) }

  lemma RowAtEnd(w: World, w': World, v: World, t: TaskId, id: RowId, q: Parsed, f: Fresh)
    requires Ready(w, t, id) && FreshKey(w, f) && v == LockedBy(w, t, id, Obtained(Held(w, id), q))
    requires w'.mk == w.mk && id in w'.rows && w'.rows[id] == Delivered(RotatedRow(v, t, f), Held(w, id))
    ensures RowRefreshed(w, w', id, q)
  {
    RotatedContent(w, v, t, id, q, f);
    SameOpening(w.mk, id, RotatedRow(v, t, f), w'.rows[id]);
    forall at ensures DueFor(w'.rows[id], w.now, q.expiresIn, at) {
      assert DueFor(RotatedRow(v, t, f), w.now, q.expiresIn, at);
    }
  }

  lemma SameOpening(mk: Bytes, id: RowId, r: Row, s: Row)
    requires SameIdentity(r, s) && r.access == s.access && r.refresh == s.refresh && r.wdek == s.wdek
    ensures OpenAccess(mk, id, r) == OpenAccess(mk, id, s)
    ensures r.refresh.Some? ==> OpenRefresh(mk, id, r) == OpenRefresh(mk, id, s)
  {
  }

  lemma RotatedContent(w: World, v: World, t: TaskId, id: RowId, q: Parsed, f: Fresh)
    requires Ready(w, t, id) && FreshKey(w, f) && v == LockedBy(w, t, id, Obtained(Held(w, id), q))
    ensures var r := RotatedRow(v, t, f);
            && OpenAccess(w.mk, id, r) == Ok(q.access) && (forall at :: DueFor(r, w.now, q.expiresIn, at))
            && (Truthy(q.refresh) ==> r.refresh.Some? && OpenRefresh(w.mk, id, r) == Ok(q.refresh.value))
  {
    var r := RotatedRow(v, t, f);
    var s := Sealing(v, w.rows[id].tenant, w.rows[id].provider, id, q, f);
    SealingOpens(w.mk, id, r.(refresh := s.refresh), q, f);
    assert OpenAccess(w.mk, id, r) == OpenAccess(w.mk, id, r.(refresh := s.refresh));
    if Truthy(q.refresh) { assert r == r.(refresh := s.refresh); }
  }

  // ------------------------------------------------------------------
  // A retry of the Activepieces write
  // ------------------------------------------------------------------

  /** The flag is set, the row is free and not due, and its access token opens. */
  predicate RetryReady(w: World, t: TaskId, id: RowId) {
    && t !in w.tasks && id in w.rows && w.rows[id].status == Active && !NeedsFull(w.rows[id], w.now)
    && w.rows[id].syncPending && w.rows[id].ext.Some?
    && (w.rows[id].leaseUntil.None? || w.rows[id].leaseUntil.value < w.now)
    && (id in w.locks ==> w.locks[id] <= w.now) && OpenAccess(w.mk, id, w.rows[id]).Ok?
  }

  function RetryEvents(w: World, ids: map<TaskId, RowId>, t: TaskId): seq<Event> {
    [Claim(w.now, 1, ids)] + ([Work(t, Lock)] + ([Work(t, Load)] + DeliveryEvents(t)))
  }

  /** The connection holds the row's token and the flag is clear; the secrets are what they were. */
  ghost predicate Resynced(w: World, w': World, t: TaskId, id: RowId) {
    && id in w.rows && id in w'.rows && OpenAccess(w.mk, id, w.rows[id]).Ok?
    && RestKept(w, w', t, id, OpenAccess(w.mk, id, w.rows[id]).value)
    && var r0, r := w.rows[id], w'.rows[id];
       && SameIdentity(r0, r) && SameSecrets(r0, r) && r.status == Active && r.ext == r0.ext && r.ext.Some?
       && r.refreshAt == r0.refreshAt && !r.syncPending && r.leaseUntil.None?
  }

  function Retrying(w: World, t: TaskId, id: RowId, pc: TaskPc): World
    requires id in w.rows
  {
    w.(tasks := w.tasks[t := Task(id, ApRetry, w.now + REFRESH_LEASE_TTL_SECONDS, pc, true)],
       rows := w.rows[id := Held(w, id)])
  }

  function RetryLocked(w: World, t: TaskId, id: RowId, pc: TaskPc): World
    requires id in w.rows
  {
    Retrying(w, t, id, pc).(locks := w.locks[id := w.now + REFRESH_LOCK_TTL])
  }

  lemma RetryClaim(w: World, t: TaskId, id: RowId, ids: map<TaskId, RowId>)
    requires RetryReady(w, t, id) && Single(ids, t, id)
    ensures ClaimStep(w, Retrying(w, t, id, Queued), w.now, 1, ids)
  {
    forall u | u in ids ensures u == t { assert u in ids.Keys; }
    var one := ClaimedTasks(w, w.now, ids);
    assert forall u :: u in one <==> u == t;
    assert w.tasks + one == Retrying(w, t, id, Queued).tasks;
    assert StampLease(w.rows, ids.Values, w.now + REFRESH_LEASE_TTL_SECONDS) == w.rows[id := Held(w, id)];
  }

  lemma RetryReads(w: World, t: TaskId, id: RowId)
    requires RetryReady(w, t, id)
    ensures LockStep(Retrying(w, t, id, Queued), RetryLocked(w, t, id, ApLocked), t)
    ensures LoadStep(RetryLocked(w, t, id, ApLocked), RetryLocked(w, t, id, ApLoaded(Held(w, id))), t)
  {
    var v, u := Retrying(w, t, id, Queued), RetryLocked(w, t, id, ApLocked);
    assert u.tasks == v.tasks[t := v.tasks[t].(pc := ApLocked)];
    assert RetryLocked(w, t, id, ApLoaded(Held(w, id))).tasks == u.tasks[t := u.tasks[t].(pc := ApLoaded(Held(w, id)))];
  }

  lemma RetryDelivers(w: World, t: TaskId, access: Bytes) returns (w': World)
    requires TaskAt(w, t) && w.tasks[t].pc.ApLoaded? && w.tasks[t].id in w.rows
    requires OpenAccess(w.mk, w.tasks[t].id, w.tasks[t].pc.row) == Ok(access)
    ensures Leads(w, DeliveryEvents(t), w')
    ensures var was := w.tasks[t].pc.row;
            w' == Freed(Flagged(Pushed1(w, t, access, was.ext, ApPushed(was)), t, was), t)
  {
    var was := w.tasks[t].pc.row;
    var v := Pushed1(w, t, access, was.ext, ApPushed(was));
    var u := Flagged(v, t, was);
    w' := Freed(u, t);
    assert PushStep(w, v, t, ApOk);
    assert FlagStep(v, u, t, true);
    FreedLeads(u, t);
    BeforeWork(v, t, Flag(true), u, ReleaseEvents(t), w');
    BeforeWork(w, t, Push(ApOk), v, [Work(t, Flag(true))] + ReleaseEvents(t), w');
  }

  /** A retry in which nothing fails brings Activepieces up to date and clears the flag. */
  lemma RetrySucceeds(w: World, t: TaskId, id: RowId) returns (ids: map<TaskId, RowId>, w': World)
    requires RetryReady(w, t, id)
    ensures ids == map[t := id] && Leads(w, RetryEvents(w, ids, t), w') && Resynced(w, w', t, id)
  {
    var access := OpenAccess(w.mk, id, w.rows[id]).value;
    var r := Held(w, id);
    assert OpenAccess(w.mk, id, r) == OpenAccess(w.mk, id, w.rows[id]);
    RetryReads(w, t, id);
    w' := RetryDelivers(RetryLocked(w, t, id, ApLoaded(r)), t, access);
    BeforeWork(RetryLocked(w, t, id, ApLocked), t, Load, RetryLocked(w, t, id, ApLoaded(r)), DeliveryEvents(t), w');
    BeforeWork(Retrying(w, t, id, Queued), t, Lock, RetryLocked(w, t, id, ApLocked),
               [Work(t, Load)] + DeliveryEvents(t), w');
    ids := RetryClaimLeads(w, t, id, [Work(t, Lock)] + ([Work(t, Load)] + DeliveryEvents(t)), w');
    ResyncedAtEnd(w, w', t, id, access);
  }

  lemma OneTask(t: TaskId, id: RowId) returns (ids: map<TaskId, RowId>)
    ensures ids == map[t := id] && Single(ids, t, id)
  {
    ids := map[t := id];
    assert |ids| == 1 && ids.Keys == {t} && ids.Values == {id};
  }

  lemma RetryClaimLeads(w: World, t: TaskId, id: RowId, es: seq<Event>, w': World) returns (ids: map<TaskId, RowId>)
    requires RetryReady(w, t, id) && Leads(Retrying(w, t, id, Queued), es, w')
    ensures ids == map[t := id] && Leads(w, [Claim(w.now, 1, ids)] + es, w')
  {
    ids := OneTask(t, id);
    RetryClaim(w, t, id, ids);
    Before(w, Claim(w.now, 1, ids), Retrying(w, t, id, Queued), es, w');
  }

  lemma ResyncedAtEnd(w: World, w': World, t: TaskId, id: RowId, access: Bytes)
    requires RetryReady(w, t, id) && OpenAccess(w.mk, id, w.rows[id]) == Ok(access)
    requires var was := Held(w, id);
             var v := RetryLocked(w, t, id, ApLoaded(was));
             w' == Freed(Flagged(Pushed1(v, t, access, was.ext, ApPushed(was)), t, was), t)
    ensures Resynced(w, w', t, id)
  {
    RestAtEnd(w, RetryLocked(w, t, id, ApLoaded(Held(w, id))), t, id, access, ApPushed(Held(w, id)));
  }

  // ------------------------------------------------------------------
  // An authorization
  // ------------------------------------------------------------------

  /** What one authorization draws and is answered. */
  datatype Grant = Grant(nonce: Nonce, tenant: Bytes, provider: Bytes, cb: CallbackId, parsed: Parsed,
                         id: RowId, rand: Fresh, ext: ExtId)

  predicate OfAccount(g: Grant, r: Row) {
    g.parsed.account.Some? && r.account == g.parsed.account && r.tenant == g.tenant && r.provider == g.provider
  }

  /** The account does not have an ACTIVE and a REVOKED row; one with the empty name has no ACTIVE one. */
  ghost predicate Room(rows: Rows, g: Grant) {
    if Truthy(g.parsed.account) then
      !exists i, j :: i in rows && j in rows && OfAccount(g, rows[i]) && OfAccount(g, rows[j])
                      && rows[i].status == Active && rows[j].status == Revoked
    else !exists i :: i in rows && OfAccount(g, rows[i]) && rows[i].status == Active
  }

  ghost predicate GrantReady(w: World, g: Grant) {
    && g.nonce !in w.usedNonces && g.nonce != [] && g.tenant != [] && BAR !in g.provider && BAR !in g.id
    && !NoncePresent(w.nonces, g.nonce, w.now) && g.cb !in w.callbacks && g.id !in w.rowOwner && g.ext !in w.extOwner
    && w.rows.Keys <= w.rowOwner.Keys && UniqueOk(w.rows) && Room(w.rows, g) && FreshKey(w, g.rand)
  }

  function GrantEvents(g: Grant): seq<Event> {
    [Initiate(g.nonce, g.tenant, g.provider)] + ([Event.Register(g.nonce, RegOk)]
    + ([Event.Arrive(g.cb, g.nonce, g.tenant, g.provider)] + ExchangeEvents(g)))
  }

  function ExchangeEvents(g: Grant): seq<Event> {
    [Front(g.cb, Consume)] + ([Front(g.cb, Exchange(Some(g.parsed)))] + StoreEvents(g))
  }

  function StoreEvents(g: Grant): seq<Event> {
    [Front(g.cb, Persist(g.id, g.rand, true))] + ([Front(g.cb, Link(g.ext, ApOk))]
    + ([Front(g.cb, Finalize(true))] + []))
  }

  /** The row as the provider's answer has it, linked to a connection that holds its token. */
  ghost predicate Stored(w: World, w': World, g: Grant) {
    && g.id in w'.rows
    && var r, p := w'.rows[g.id], g.parsed;
       && r.tenant == g.tenant && r.provider == g.provider && r.account == p.account
       && OpenAccess(w'.mk, g.id, r) == Ok(p.access)
       && (if Truthy(p.refresh) then r.refresh.Some? && OpenRefresh(w'.mk, g.id, r) == Ok(p.refresh.value)
           else r.refresh.None?)
       && (forall at :: DueFor(r, w.now, p.expiresIn, at))
       && r.refreshCount == 0 && r.status == Active && r.ext == Some(g.ext) && !r.syncPending && r.leaseUntil.None?
       && Holds(w', g.ext, p.access)
  }

  /** Of the other rows only the ACTIVE one of the same named account changes: it is REVOKED. */
  ghost predicate PreviousRevoked(w: World, w': World, g: Grant) {
    forall j :: j != g.id ==>
      && (j in w'.rows <==> j in w.rows)
      && (j in w.rows ==>
            w'.rows[j] == if Truthy(g.parsed.account) && OfAccount(g, w.rows[j]) && w.rows[j].status == Active
                          then w.rows[j].(status := Revoked) else w.rows[j])
  }

  ghost predicate SagaClosed(w': World, g: Grant) {
    && g.nonce in w'.sagas
    && w'.sagas[g.nonce] == Saga(g.tenant, g.provider, SagaCompleted, true, Some(g.id), Some(g.ext))
    && g.nonce !in w'.nonces
    && g.cb in w'.callbacks && w'.callbacks[g.cb].pc == Completed(g.id, g.ext)
  }

  function GrantSecrets(w: World, g: Grant): Secrets
    requires |g.rand.dek| == DEK_BYTES
  {
    Sealing(w, g.tenant, g.provider, g.id, g.parsed, g.rand)
  }

  function GrantRow(w: World, g: Grant): Row
    requires |g.rand.dek| == DEK_BYTES
  {
    NewRow(w.now, g.tenant, g.provider, g.parsed, GrantSecrets(w, g))
  }

  function GrantRows(w: World, g: Grant): Rows
    requires |g.rand.dek| == DEK_BYTES
  {
    InsertToken(w.rows, g.id, GrantRow(w, g))
  }

  /** The world while the callback is on its way, before it has stored anything. */
  function OnTheWay(w: World, g: Grant, pc: CallbackPc, nonces: Nonces): World {
    w.(sagas := w.sagas[g.nonce := Saga(g.tenant, g.provider, Initiated, true, None, None)],
       usedNonces := w.usedNonces + {g.nonce}, nonces := nonces,
       callbacks := w.callbacks[g.cb := Callback(g.nonce, g.tenant, g.provider, pc, true)])
  }

  function Registered(w: World, g: Grant): Nonces { SetNonce(w.nonces, g.nonce, g.tenant, w.now + STATE_TTL_SECONDS) }

  /** And after. */
  function Settling(w: World, g: Grant, pc: CallbackPc, rows: Rows, saga: Saga, linked: bool): World {
    OnTheWay(w, g, pc, w.nonces - {g.nonce}).(
      sagas := w.sagas[g.nonce := saga],
      rows := rows, rowOwner := w.rowOwner[g.id := g.cb],
      usedKeys := w.usedKeys + {g.rand.dek},
      conns := if linked then w.conns[g.ext := g.parsed.access] else w.conns,
      extOwner := if linked then w.extOwner[g.ext := g.cb] else w.extOwner)
  }

  function StoredSaga(g: Grant, status: SagaStatus, ext: Option<ExtId>): Saga {
    Saga(g.tenant, g.provider, status, true, Some(g.id), ext)
  }

  function WithRow(w: World, g: Grant): World
    requires |g.rand.dek| == DEK_BYTES
  {
    Settling(w, g, Persisted(g.id, g.parsed.access), GrantRows(w, g), StoredSaga(g, TokenObtained, None), false)
  }

  function WithLink(w: World, g: Grant): World
    requires |g.rand.dek| == DEK_BYTES
  {
    Settling(w, g, Linked(g.id, g.ext), GrantRows(w, g), StoredSaga(g, TokenObtained, None), true)
  }

  function Closed(w: World, g: Grant): World
    requires |g.rand.dek| == DEK_BYTES
  {
    Settling(w, g, Completed(g.id, g.ext), GrantRows(w, g)[g.id := GrantRow(w, g).(ext := Some(g.ext))],
             StoredSaga(g, SagaCompleted, Some(g.ext)), true)
  }

  lemma RoomIsUnique(w: World, g: Grant)
    requires GrantReady(w, g)
    ensures UniqueOk(InsertToken(w.rows, g.id, GrantRow(w, g)))
  {
    var r := GrantRow(w, g);
    assert forall i :: i in w.rows ==> (SameAccount(r, w.rows[i]) <==> OfAccount(g, w.rows[i]));
    if Truthy(g.parsed.account) {
      InsertCommitsIff(w.rows, g.id, r);
    } else {
      InsertWithoutAccount(w.rows, g.id, r);
    }
  }

  lemma PersistLeads(w: World, g: Grant)
    requires GrantReady(w, g)
    ensures PersistStep(OnTheWay(w, g, Exchanged(g.parsed), w.nonces - {g.nonce}), WithRow(w, g),
                        g.cb, g.id, g.rand, true)
  {
    var v, v' := OnTheWay(w, g, Exchanged(g.parsed), w.nonces - {g.nonce}), WithRow(w, g);
    RoomIsUnique(w, g);
    assert v'.callbacks == v.callbacks[g.cb := v.callbacks[g.cb].(pc := Persisted(g.id, g.parsed.access))];
    assert v'.sagas == SetSaga(v.sagas, g.nonce, (s: Saga) => s.(status := TokenObtained, token := Some(g.id)));
  }

  lemma LinkLeads(w: World, g: Grant, rows: Rows)
    requires g.ext !in w.extOwner
    ensures var saga := StoredSaga(g, TokenObtained, None);
            LinkStep(Settling(w, g, Persisted(g.id, g.parsed.access), rows, saga, false),
                     Settling(w, g, Linked(g.id, g.ext), rows, saga, true), g.cb, g.ext, ApOk)
  {
    var saga := StoredSaga(g, TokenObtained, None);
    var v := Settling(w, g, Persisted(g.id, g.parsed.access), rows, saga, false);
    var v' := Settling(w, g, Linked(g.id, g.ext), rows, saga, true);
    assert v'.callbacks == v.callbacks[g.cb := v.callbacks[g.cb].(pc := Linked(g.id, g.ext))];
  }

  lemma FinalizeLeads(w: World, g: Grant, rows: Rows)
    requires g.id in rows
    ensures FinalizeStep(Settling(w, g, Linked(g.id, g.ext), rows, StoredSaga(g, TokenObtained, None), true),
                         Settling(w, g, Completed(g.id, g.ext), rows[g.id := rows[g.id].(ext := Some(g.ext))],
                                  StoredSaga(g, SagaCompleted, Some(g.ext)), true), g.cb, true)
  {
    var v := Settling(w, g, Linked(g.id, g.ext), rows, StoredSaga(g, TokenObtained, None), true);
    var v' := Settling(w, g, Completed(g.id, g.ext), rows[g.id := rows[g.id].(ext := Some(g.ext))],
                       StoredSaga(g, SagaCompleted, Some(g.ext)), true);
    assert v'.callbacks == v.callbacks[g.cb := v.callbacks[g.cb].(pc := Completed(g.id, g.ext))];
    assert v'.sagas == SetSaga(v.sagas, g.nonce, (s: Saga) => s.(status := SagaCompleted, ext := Some(g.ext)));
  }

  /** The saga is there, and then its nonce is registered. */
  function Begun(w: World, g: Grant): World {
    w.(sagas := w.sagas[g.nonce := Saga(g.tenant, g.provider, Initiated, false, None, None)],
       usedNonces := w.usedNonces + {g.nonce})
  }

  function Announced(w: World, g: Grant): World {
    w.(sagas := w.sagas[g.nonce := Saga(g.tenant, g.provider, Initiated, true, None, None)],
       usedNonces := w.usedNonces + {g.nonce}, nonces := Registered(w, g))
  }

  lemma RegisterLeads(w: World, g: Grant)
    requires GrantReady(w, g)
    ensures Next(w, Begun(w, g), Initiate(g.nonce, g.tenant, g.provider))
    ensures Next(Begun(w, g), Announced(w, g), Event.Register(g.nonce, RegOk))
  {
    var v, v' := Begun(w, g), Announced(w, g);
    assert v'.sagas == v.sagas[g.nonce := v.sagas[g.nonce].(registered := true)];
    assert RegisterStep(v, v', g.nonce, RegOk);
  }

  lemma CallbackLeads(w: World, g: Grant)
    requires GrantReady(w, g)
    ensures Next(Announced(w, g), OnTheWay(w, g, Checked, Registered(w, g)),
                 Event.Arrive(g.cb, g.nonce, g.tenant, g.provider))
  {
  }

  lemma ArrivalLeads(w: World, g: Grant, es: seq<Event>, w': World)
    requires GrantReady(w, g) && Leads(OnTheWay(w, g, Checked, Registered(w, g)), es, w')
    ensures Leads(w, [Initiate(g.nonce, g.tenant, g.provider)] + ([Event.Register(g.nonce, RegOk)]
                     + ([Event.Arrive(g.cb, g.nonce, g.tenant, g.provider)] + es)), w')
  {
    var arrive := Event.Arrive(g.cb, g.nonce, g.tenant, g.provider);
    RegisterLeads(w, g);
    CallbackLeads(w, g);
    Before(Announced(w, g), arrive, OnTheWay(w, g, Checked, Registered(w, g)), es, w');
    Before(Begun(w, g), Event.Register(g.nonce, RegOk), Announced(w, g), [arrive] + es, w');
    Before(w, Initiate(g.nonce, g.tenant, g.provider), Begun(w, g),
           [Event.Register(g.nonce, RegOk)] + ([arrive] + es), w');
  }

  lemma ConsumeLeads(w: World, g: Grant)
    requires GrantReady(w, g)
    ensures ConsumeStep(OnTheWay(w, g, Checked, Registered(w, g)), OnTheWay(w, g, Won, w.nonces - {g.nonce}), g.cb)
  {
    var v, v' := OnTheWay(w, g, Checked, Registered(w, g)), OnTheWay(w, g, Won, w.nonces - {g.nonce});
    assert v'.callbacks == v.callbacks[g.cb := v.callbacks[g.cb].(pc := Won)];
    assert GetDelNonce(v.nonces, g.nonce) == v'.nonces;
  }

  lemma CodeLeads(w: World, g: Grant, nonces: Nonces)
    ensures ExchangeStep(OnTheWay(w, g, Won, nonces), OnTheWay(w, g, Exchanged(g.parsed), nonces), g.cb, Some(g.parsed))
  {
    var v, v' := OnTheWay(w, g, Won, nonces), OnTheWay(w, g, Exchanged(g.parsed), nonces);
    assert v'.callbacks == v.callbacks[g.cb := v.callbacks[g.cb].(pc := Exchanged(g.parsed))];
  }

  lemma ExchangeLeads(w: World, g: Grant, es: seq<Event>, w': World)
    requires GrantReady(w, g) && Leads(OnTheWay(w, g, Exchanged(g.parsed), w.nonces - {g.nonce}), es, w')
    ensures Leads(OnTheWay(w, g, Checked, Registered(w, g)),
                  [Front(g.cb, Consume)] + ([Front(g.cb, Exchange(Some(g.parsed)))] + es), w')
  {
    var spent := w.nonces - {g.nonce};
    ConsumeLeads(w, g);
    CodeLeads(w, g, spent);
    BeforeFront(OnTheWay(w, g, Won, spent), g.cb, Exchange(Some(g.parsed)), OnTheWay(w, g, Exchanged(g.parsed), spent),
                es, w');
    BeforeFront(OnTheWay(w, g, Checked, Registered(w, g)), g.cb, Consume, OnTheWay(w, g, Won, spent),
                [Front(g.cb, Exchange(Some(g.parsed)))] + es, w');
  }

  lemma StoreLeads(w: World, g: Grant)
    requires GrantReady(w, g)
    ensures Leads(OnTheWay(w, g, Exchanged(g.parsed), w.nonces - {g.nonce}), StoreEvents(g), Closed(w, g))
  {
    PersistLeads(w, g);
    LinkLeads(w, g, GrantRows(w, g));
    FinalizeLeads(w, g, GrantRows(w, g));
    var end := Closed(w, g);
    BeforeFront(WithLink(w, g), g.cb, Finalize(true), end, [], end);
    BeforeFront(WithRow(w, g), g.cb, Link(g.ext, ApOk), WithLink(w, g), [Front(g.cb, Finalize(true))] + [], end);
    BeforeFront(OnTheWay(w, g, Exchanged(g.parsed), w.nonces - {g.nonce}), g.cb, Persist(g.id, g.rand, true),
                WithRow(w, g), [Front(g.cb, Link(g.ext, ApOk))] + ([Front(g.cb, Finalize(true))] + []), end);
  }

  /**
   From every world in which the account has room: an authorization in which nothing fails stores the
   tokens the provider gave, links them, revokes the account's previous row, and closes its saga.
   */
  lemma AuthorizationSucceeds(w: World, g: Grant) returns (w': World)
    requires GrantReady(w, g)
    ensures Leads(w, GrantEvents(g), w') && Stored(w, w', g) && PreviousRevoked(w, w', g) && SagaClosed(w', g)
  {
    w' := Closed(w, g);
    StoreLeads(w, g);
    ExchangeLeads(w, g, StoreEvents(g), w');
    ArrivalLeads(w, g, ExchangeEvents(g), w');
    StoredAtEnd(w, g);
  }

  lemma StoredAtEnd(w: World, g: Grant)
    requires GrantReady(w, g)
    ensures Stored(w, Closed(w, g), g) && PreviousRevoked(w, Closed(w, g), g) && SagaClosed(Closed(w, g), g)
  {
    var r := GrantRow(w, g);
    SealingOpens(w.mk, g.id, r, g.parsed, g.rand);
    var end := Closed(w, g).rows[g.id];
    assert end == r.(ext := Some(g.ext));
    assert OpenAccess(w.mk, g.id, end) == OpenAccess(w.mk, g.id, r);
    if r.refresh.Some? { assert OpenRefresh(w.mk, g.id, end) == OpenRefresh(w.mk, g.id, r); }
  }
}
