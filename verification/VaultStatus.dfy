/** Row status: at most one active row per account, no way back to ACTIVE, and when commits abort. */
module VaultStatus {
  import opened Wrappers
  import opened Envelope
  import opened Vault
  import opened VaultFrames

  /** Two rows of one account: the key of the unique constraint without the status. */
  predicate SameAccount(r: Row, s: Row) {
    r.account.Some? && r.account == s.account && r.tenant == s.tenant && r.provider == s.provider
  }

  ghost predicate OneActivePerAccount(rows: Rows) {
    forall i, j :: i in rows && j in rows && i != j && SameAccount(rows[i], rows[j])
      ==> !(rows[i].status == Active && rows[j].status == Active)
  }

  /** Rows kept by a transaction keep their identity; those it removed are gone. */
  ghost predicate KeepsStatus(before: Rows, after: Rows) {
    forall id :: id in after ==>
      id in before && SameIdentity(before[id], after[id]) && after[id].status == before[id].status
  }

  /** A row that has left ACTIVE stays out of it. */
  ghost predicate NoReturn(before: Rows, after: Rows) {
    forall id :: id in before && id in after && before[id].status != Active ==> after[id].status != Active
  }

  lemma UniqueKept(before: Rows, after: Rows)
    requires UniqueOk(before) && KeepsStatus(before, after)
    ensures UniqueOk(after)
  {
  }

  // ------------------------------------------------------------------
  // Steps
  // ------------------------------------------------------------------

  lemma StatusWork(w: World, w': World, t: TaskId, op: TaskOp)
    requires TaskAt(w, t) && TaskNext(w, w', t, op) && !op.Mark?
    ensures KeepsStatus(w.rows, w'.rows)
  {
    forall id | id in w'.rows
      ensures id in w.rows && SameIdentity(w.rows[id], w'.rows[id]) && w'.rows[id].status == w.rows[id].status
    {
      WorkFrame(w, w', t, op);
      if id != w.tasks[t].id { WorkOtherRow(w, w', t, op, id); } else { OwnStatus(w, w', t, op); }
    }
  }

  /** Even a rotation that commits after a revocation leaves the status alone. */
  lemma OwnStatus(w: World, w': World, t: TaskId, op: TaskOp)
    requires TaskAt(w, t) && TaskNext(w, w', t, op) && !op.Mark? && w.tasks[t].id in w.rows
    ensures var id := w.tasks[t].id;
            id in w'.rows && SameIdentity(w.rows[id], w'.rows[id]) && w'.rows[id].status == w.rows[id].status
  {
  }

  lemma StatusFront(w: World, w': World, cb: CallbackId, op: CallbackOp)
    requires CallbackAt(w, cb) && CallbackNext(w, w', cb, op) && !op.Persist?
    ensures KeepsStatus(w.rows, w'.rows)
  {
  }

  lemma StatusPersist(w: World, w': World, cb: CallbackId, id: RowId, f: Fresh, commit: bool)
    requires PersistStep(w, w', cb, id, f, commit) && UniqueOk(w.rows) && w.rows.Keys <= w.rowOwner.Keys
    ensures UniqueOk(w'.rows) && NoReturn(w.rows, w'.rows)
  {
  }

  lemma StatusClaim(w: World, w': World, at: int, limit: nat, ids: map<TaskId, RowId>)
    requires ClaimStep(w, w', at, limit, ids)
    ensures KeepsStatus(w.rows, w'.rows)
  {
  }

  lemma StatusMark(w: World, w': World, t: TaskId, commit: bool)
    requires MarkStep(w, w', t, commit) && UniqueOk(w.rows) && w.tasks[t].pc.status != Active
    ensures UniqueOk(w'.rows) && NoReturn(w.rows, w'.rows)
  {
  }

  lemma StatusRevoke(w: World, w': World, hook: HookId, commit: bool)
    requires RevokeStep(w, w', hook, commit) && UniqueOk(w.rows)
    ensures UniqueOk(w'.rows) && NoReturn(w.rows, w'.rows)
  {
  }

  ghost predicate StatusInv(w: World) {
    && UniqueOk(w.rows) && w.rows.Keys <= w.rowOwner.Keys
    && (forall t :: t in w.tasks && w.tasks[t].pc.Marking? ==> w.tasks[t].pc.status != Active)
  }

  lemma MarkingInactive(w: World, w': World, t: TaskId, op: TaskOp)
    requires TaskAt(w, t) && TaskNext(w, w', t, op) && t in w'.tasks && w'.tasks[t].pc.Marking?
    ensures w.tasks[t].pc.Marking? ==> w'.tasks[t].pc.status == w.tasks[t].pc.status
    ensures !w.tasks[t].pc.Marking? ==> w'.tasks[t].pc.status != Active
  {
  }

  lemma StatusNextWork(w: World, w': World, t: TaskId, op: TaskOp)
    requires StatusInv(w) && TaskAt(w, t) && TaskNext(w, w', t, op)
    ensures StatusInv(w') && NoReturn(w.rows, w'.rows)
  {
    WorkFrame(w, w', t, op);
    if op.Mark? {
      StatusMark(w, w', t, op.commit);
    } else {
      StatusWork(w, w', t, op);
      UniqueKept(w.rows, w'.rows);
    }
    forall u | u in w'.tasks && w'.tasks[u].pc.Marking? ensures w'.tasks[u].pc.status != Active {
      if u == t { MarkingInactive(w, w', t, op); }
    }
  }

  lemma StatusNextFront(w: World, w': World, cb: CallbackId, op: CallbackOp)
    requires StatusInv(w) && CallbackAt(w, cb) && CallbackNext(w, w', cb, op)
    ensures StatusInv(w') && NoReturn(w.rows, w'.rows)
  {
    FrontFrame(w, w', cb, op);
    FrontOwners(w, w', cb, op);
    if op.Persist? {
      StatusPersist(w, w', cb, op.id, op.rand, op.commit);
    } else {
      StatusFront(w, w', cb, op);
      UniqueKept(w.rows, w'.rows);
    }
  }

  lemma StatusNextOther(w: World, w': World, e: Event)
    requires StatusInv(w) && Next(w, w', e) && !e.Work? && !e.Front?
    ensures StatusInv(w') && NoReturn(w.rows, w'.rows)
  {
    OtherFrame(w, w', e);
    forall u | u in w'.tasks && w'.tasks[u].pc.Marking? ensures w'.tasks[u].pc.status != Active {
      OtherTask(w, w', e, u);
    }
    if e.Claim? {
      StatusClaim(w, w', e.at, e.limit, e.ids);
      UniqueKept(w.rows, w'.rows);
    } else if e.Revoke? {
      StatusRevoke(w, w', e.hook, e.commit);
    }
  }

  lemma StatusNext(w: World, w': World, e: Event)
    requires StatusInv(w) && Next(w, w', e)
    ensures StatusInv(w') && NoReturn(w.rows, w'.rows)
  {
    if e.Work? { StatusNextWork(w, w', e.t, e.op); }
    else if e.Front? { StatusNextFront(w, w', e.cb, e.cop); }
    else { StatusNextOther(w, w', e); }
  }

  // ------------------------------------------------------------------
  // Runs
  // ------------------------------------------------------------------

  lemma {:induction false} RunStatus(ws: seq<World>, es: seq<Event>, n: nat)
    requires IsRun(ws, es) && n < |ws|
    ensures StatusInv(ws[n])
  {
    if n > 0 {
      RunStatus(ws, es, n - 1);
      StatusNext(ws[n - 1], ws[n], es[n - 1]);
    }
  }

  /** In every reachable world a tenant's account has at most one active row. */
  lemma AtMostOneActive(ws: seq<World>, es: seq<Event>, n: nat)
    requires IsRun(ws, es) && n < |ws|
    ensures OneActivePerAccount(ws[n].rows)
  {
    RunStatus(ws, es, n);
  }

  /** The id has been used, and its row, if it still exists, is not active. */
  predicate Inactive(w: World, id: RowId) {
    id in w.rowOwner && (id in w.rows ==> w.rows[id].status != Active)
  }

  /**
   From any point of any run on, a row that is not active is never active again, whatever callbacks,
   workers and webhooks do in between; nor does a deleted row come back.
   */
  lemma {:induction false} NeverActiveAgain(ws: seq<World>, es: seq<Event>, m: nat, n: nat, id: RowId)
    requires IsRun(ws, es) && m <= n < |ws|
    requires Inactive(ws[m], id)
    ensures Inactive(ws[n], id)
    decreases n
  {
    if m < n {
      NeverActiveAgain(ws, es, m, n - 1, id);
      RunStatus(ws, es, n - 1);
      StaysInactive(ws[n - 1], ws[n], es[n - 1], id);
    }
  }

  lemma StaysInactive(w: World, w': World, e: Event, id: RowId)
    requires StatusInv(w) && Next(w, w', e) && Inactive(w, id)
    ensures Inactive(w', id)
  {
    GoneStaysGone(w, w', e, id);
    StatusNext(w, w', e);
  }

  /** Row ids are never drawn twice, so a deleted row does not come back. */
  lemma GoneStaysGone(w: World, w': World, e: Event, id: RowId)
    requires Next(w, w', e) && id in w.rowOwner
    ensures id in w'.rowOwner
    ensures id !in w.rows ==> id !in w'.rows
  {
    if e.Work? { WorkFrame(w, w', e.t, e.op); }
    else if e.Front? { GoneAfterFront(w, w', e.cb, e.cop, id); }
    else { OtherFrame(w, w', e); }
  }

  lemma GoneAfterFront(w: World, w': World, cb: CallbackId, op: CallbackOp, id: RowId)
    requires CallbackAt(w, cb) && CallbackNext(w, w', cb, op) && id in w.rowOwner
    ensures id in w'.rowOwner
    ensures id !in w.rows ==> id !in w'.rows
  {
  }

  // ------------------------------------------------------------------
  // When commits abort
  // ------------------------------------------------------------------

  /** The account has both an active and a revoked row. */
  ghost predicate AccountIsFull(rows: Rows, r: Row) {
    exists i, j :: i in rows && j in rows && SameAccount(r, rows[i]) && SameAccount(r, rows[j])
                   && rows[i].status == Active && rows[j].status == Revoked
  }

  /**
   A token insert commits exactly when its account does not have an active and a revoked row at once:
   revoking the active one would then duplicate (tenant, provider, account, REVOKED).
   */
  lemma InsertCommitsIff(rows: Rows, id: RowId, r: Row)
    requires UniqueOk(rows) && id !in rows && r.status == Active && Truthy(r.account)
    ensures UniqueOk(InsertToken(rows, id, r)) <==> !AccountIsFull(rows, r)
  {
    if AccountIsFull(rows, r) { InsertAborts(rows, id, r); } else { InsertCommits(rows, id, r); }
  }

  lemma InsertAborts(rows: Rows, id: RowId, r: Row)
    requires id !in rows && Truthy(r.account) && AccountIsFull(rows, r)
    ensures !UniqueOk(InsertToken(rows, id, r))
  {
    var after := InsertToken(rows, id, r);
    var i, j :| i in rows && j in rows && SameAccount(r, rows[i]) && SameAccount(r, rows[j])
                && rows[i].status == Active && rows[j].status == Revoked;
    assert Clash(after[i], after[j]);
  }

  lemma InsertCommits(rows: Rows, id: RowId, r: Row)
    requires UniqueOk(rows) && id !in rows && r.status == Active && Truthy(r.account) && !AccountIsFull(rows, r)
    ensures UniqueOk(InsertToken(rows, id, r))
  {
    var after := InsertToken(rows, id, r);
    forall i, j | i in after && j in after && i != j ensures !Clash(after[i], after[j]) {
      if i in rows && j in rows { assert !Clash(rows[i], rows[j]); }
    }
  }

  lemma SecondAuthorization(a: RowId, b: RowId, r: Row, s: Row)
    requires a != b && Truthy(r.account) && SameAccount(r, s) && r.status == s.status == Active
    ensures InsertToken(map[], a, r) == map[a := r]
    ensures InsertToken(map[a := r], b, s) == map[a := r.(status := Revoked), b := s]
    ensures UniqueOk(map[a := r]) && UniqueOk(map[a := r.(status := Revoked), b := s])
  {
    var after := map[a := r.(status := Revoked), b := s];
    forall i, j | i in after && j in after && i != j ensures !Clash(after[i], after[j]) {
      assert (i == a && j == b) || (i == b && j == a);
    }
  }

  /**
   From an empty table: an account can be authorized twice; the third authorization aborts, and so
   does the webhook that would revoke the second.
   */
  lemma ThirdAuthorizationAborts(a: RowId, b: RowId, c: RowId, r: Row, s: Row, t: Row)
    requires a != b && b != c && a != c && Truthy(r.account)
    requires SameAccount(r, s) && SameAccount(r, t) && r.status == s.status == t.status == Active
    ensures var two := InsertToken(InsertToken(map[], a, r), b, s);
            && UniqueOk(two)
            && !UniqueOk(InsertToken(two, c, t))
            && !UniqueOk(RevokeAccount(two, r.provider, r.account.value))
  {
    SecondAuthorization(a, b, r, s);
    var two := map[a := r.(status := Revoked), b := s];
    FullAccountAborts(two, b, a, c, t);
  }

  lemma FullAccountAborts(rows: Rows, i: RowId, j: RowId, c: RowId, t: Row)
    requires UniqueOk(rows) && i in rows && j in rows && c !in rows && Truthy(t.account)
    requires SameAccount(t, rows[i]) && SameAccount(t, rows[j]) && rows[i].status == Active && rows[j].status == Revoked
    ensures !UniqueOk(InsertToken(rows, c, t)) && !UniqueOk(RevokeAccount(rows, t.provider, t.account.value))
  {
    assert AccountIsFull(rows, t);
    InsertAborts(rows, c, t);
    assert SameAccount(rows[i], rows[i]) && SameAccount(rows[i], rows[j]) && AccountIsFull(rows, rows[i]);
    RevocationCommitsIff(rows, t.provider, t.account.value);
  }

  /** Without an account nothing can clash; an empty account name is stored but never soft-revoked. */
  lemma InsertWithoutAccount(rows: Rows, id: RowId, r: Row)
    requires UniqueOk(rows) && id !in rows && r.status == Active && !Truthy(r.account)
    ensures UniqueOk(InsertToken(rows, id, r)) <==>
            !exists i :: i in rows && SameAccount(r, rows[i]) && rows[i].status == Active
  {
    var after := InsertToken(rows, id, r);
    if i :| i in rows && SameAccount(r, rows[i]) && rows[i].status == Active {
      assert Clash(after[i], after[id]);
    } else {
      forall i, j | i in after && j in after && i != j ensures !Clash(after[i], after[j]) {
        if i in rows && j in rows { assert !Clash(rows[i], rows[j]); }
      }
    }
  }

  /** A webhook revocation commits exactly when no targeted row has a revoked sibling. */
  lemma RevocationCommitsIff(rows: Rows, provider: Bytes, account: Bytes)
    requires UniqueOk(rows)
    ensures UniqueOk(RevokeAccount(rows, provider, account)) <==>
            !exists i :: i in rows && Targeted(rows[i], provider, account) && AccountIsFull(rows, rows[i])
  {
    var after := RevokeAccount(rows, provider, account);
    if i :| i in rows && Targeted(rows[i], provider, account) && AccountIsFull(rows, rows[i]) {
      var a, b :| a in rows && b in rows && SameAccount(rows[i], rows[a]) && SameAccount(rows[i], rows[b])
                  && rows[a].status == Active && rows[b].status == Revoked;
      assert Clash(after[a], after[b]);
    } else {
      forall i, j | i in after && j in after && i != j ensures !Clash(after[i], after[j]) {
        assert !Clash(rows[i], rows[j]);
        if Clash(after[i], after[j]) {
          if Targeted(rows[i], provider, account) {
            assert SameAccount(rows[i], rows[i]) && SameAccount(rows[i], rows[j]);
          }
          if Targeted(rows[j], provider, account) {
            assert SameAccount(rows[j], rows[j]) && SameAccount(rows[j], rows[i]);
          }
        }
      }
    }
  }

  /**
   Marking a row REVOKED or CORRUPTED commits exactly when no other row of its account has that
   status already.
   */
  lemma MarkCommitsIff(rows: Rows, id: RowId, status: Status)
    requires UniqueOk(rows) && id in rows
    ensures UniqueOk(rows[id := rows[id].(status := status)]) <==> !StatusTaken(rows, id, status)
  {
    var after := rows[id := rows[id].(status := status)];
    if j :| j in rows && j != id && SameAccount(rows[id], rows[j]) && rows[j].status == status {
      assert Clash(after[id], after[j]);
    } else {
      forall i, j | i in after && j in after && i != j ensures !Clash(after[i], after[j]) {
        assert !Clash(rows[i], rows[j]);
        if i == id { assert !(SameAccount(rows[id], rows[j]) && rows[j].status == status); }
        if j == id && SameAccount(rows[i], rows[id]) { assert SameAccount(rows[id], rows[i]); }
      }
    }
  }

  /** Another row of the account has the status. */
  ghost predicate StatusTaken(rows: Rows, id: RowId, status: Status)
    requires id in rows
  {
    exists j :: j in rows && j != id && SameAccount(rows[id], rows[j]) && rows[j].status == status
  }

  /**
   A worker's mark, after a terminal provider answer or a failed decryption: the row gets the status
   if and only if no sibling has it; otherwise nothing changes, and the row can be claimed as before.
   */
  lemma MarkOutcome(w: World, w': World, t: TaskId)
    requires MarkStep(w, w', t, true) && UniqueOk(w.rows) && w.tasks[t].id in w.rows
    ensures var id := w.tasks[t].id;
            var taken := StatusTaken(w.rows, id, w.tasks[t].pc.status);
            && id in w'.rows
            && (!taken ==> w'.rows == w.rows[id := w.rows[id].(status := w.tasks[t].pc.status)])
            && (taken ==> w'.rows == w.rows)
            && (w.rows[id].status != w.tasks[t].pc.status ==>
                  (w'.rows[id].status == w.tasks[t].pc.status <==> !taken))
  {
    MarkCommitsIff(w.rows, w.tasks[t].id, w.tasks[t].pc.status);
  }

  /** When a revocation commits, no active row of the account is left, and other rows are untouched. */
  lemma CommittedRevocationIsComplete(w: World, w': World, hook: HookId)
    requires RevokeStep(w, w', hook, true)
    requires UniqueOk(RevokeAccount(w.rows, w.hooks[hook].provider, w.hooks[hook].account))
    ensures var k := w.hooks[hook];
            && w'.rows.Keys == w.rows.Keys
            && forall id :: id in w.rows ==>
                 && !Targeted(w'.rows[id], k.provider, k.account)
                 && (!Targeted(w.rows[id], k.provider, k.account) ==> w'.rows[id] == w.rows[id])
                 && (Targeted(w.rows[id], k.provider, k.account) ==> w'.rows[id] == w.rows[id].(status := Revoked))
  {
  }

  /**
   A revocation that aborts is lost: nothing was revoked, and because the event id was recorded
   first, a retry of the same event within the dedupe window schedules nothing.
   */
  lemma AbortedRevocationIsLost(w0: World, w1: World, w2: World, hook: HookId, eid: EventId,
                                provider: Bytes, account: Bytes, commit: bool, i: RowId)
    requires UniqueOk(w0.rows) && account != [] && !Duplicate(w0, Some(eid))
    requires DeliverStep(w0, w1, hook, Some(eid), provider, account) && RevokeStep(w1, w2, hook, commit)
    requires i in w0.rows && Targeted(w0.rows[i], provider, account) && AccountIsFull(w0.rows, w0.rows[i])
    ensures w2.rows == w0.rows && w2.rows[i].status == Active
    ensures forall w3: World, w4: World, retry: HookId |
              w3.seen == w2.seen && w3.now < w0.now + EVENT_DEDUPE_TTL ::
              DeliverStep(w3, w4, retry, Some(eid), provider, account) ==> w4 == w3
  {
    RevocationCommitsIff(w0.rows, provider, account);
  }
}
