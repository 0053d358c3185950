/** Every stored row opens, in every run, whatever the timing. */
module VaultSecrets {
  import opened Wrappers
  import opened Envelope
  import opened Vault
  import opened VaultFrames
  import opened VaultStatus

  /**
   The row's key unwraps under the row's own associated data and opens the access slot; it opens the
   refresh slot exactly when the last rotation did not keep an older refresh ciphertext.
   */
  predicate RowOpens(mk: Bytes, id: RowId, r: Row) {
    && OpenAccess(mk, id, r).Ok?
    && (r.refresh.Some? ==> (OpenRefresh(mk, id, r).Ok? <==> !r.h.stale))
  }

  predicate KeysDrawn(used: set<Bytes>, r: Row) {
    && r.wdek.ciphertext.plain in used
    && (r.refresh.Some? ==> r.refresh.value.ciphertext.key in used)
  }

  predicate TaskSound(w: World, k: Task) {
    && k.id in w.rowOwner
    && (Snap(k.pc).Some? ==>
          && KeysDrawn(w.usedKeys, Snap(k.pc).value)
          && (k.id in w.rows ==> SameIdentity(w.rows[k.id], Snap(k.pc).value)))
    && (k.pc.Loaded? || k.pc.Locked? || k.pc.Decrypted? || k.pc.Obtained? ==> k.pc.row.refresh.Some?)
  }

  ghost predicate SecretsInv(w: World) {
    && w.rows.Keys <= w.rowOwner.Keys
    && (forall id :: id in w.rows ==> RowOpens(w.mk, id, w.rows[id]) && KeysDrawn(w.usedKeys, w.rows[id]))
    && (forall t :: t in w.tasks ==> TaskSound(w, w.tasks[t]))
  }

  // ------------------------------------------------------------------
  // One row
  // ------------------------------------------------------------------

  lemma SealingOpens(mk: Bytes, id: RowId, r: Row, p: Parsed, f: Fresh)
    requires |f.dek| == DEK_BYTES
    requires SealTokens(mk, RowAad(r.tenant, r.provider, id), p, f) == Ok(Secrets(r.wdek, r.access, r.refresh))
    ensures OpenAccess(mk, id, r) == Ok(p.access)
    ensures r.refresh.Some? ==> OpenRefresh(mk, id, r) == Ok(p.refresh.value)
    ensures r.wdek.ciphertext.plain == f.dek
    ensures r.refresh.Some? ==> r.refresh.value.ciphertext.key == f.dek
  {
  }

  lemma InsertedOpens(w: World, cb: CallbackId, id: RowId, f: Fresh)
    requires cb in w.callbacks && w.callbacks[cb].pc.Exchanged? && |f.dek| == DEK_BYTES
    ensures var r := InsertedRow(w, cb, id, f);
            && RowOpens(w.mk, id, r) && KeysDrawn({f.dek}, r)
            && OpenAccess(w.mk, id, r) == Ok(w.callbacks[cb].pc.parsed.access)
  {
    SealingOpens(w.mk, id, InsertedRow(w, cb, id, f), w.callbacks[cb].pc.parsed, f);
  }

  /**
   A rotated row opens its access slot; it opens its refresh slot exactly when the provider sent a
   new refresh token, because a kept ciphertext stays under the key it was sealed with.
   */
  lemma RotatedOpens(w: World, t: TaskId, f: Fresh)
    requires t in w.tasks && w.tasks[t].pc.Obtained? && w.tasks[t].id in w.rows
    requires TaskSound(w, w.tasks[t]) && FreshKey(w, f)
    ensures var k := w.tasks[t];
            var r := RotatedRow(w, t, f);
            && RowOpens(w.mk, k.id, r) && KeysDrawn(w.usedKeys + {f.dek}, r)
            && OpenAccess(w.mk, k.id, r) == Ok(k.pc.parsed.access)
            && (r.h.stale <==> !Truthy(k.pc.parsed.refresh))
  {
    var k := w.tasks[t];
    var was, p := k.pc.row, k.pc.parsed;
    var r := RotatedRow(w, t, f);
    var s := Sealing(w, was.tenant, was.provider, k.id, p, f);
    SealingOpens(w.mk, k.id, r.(refresh := s.refresh), p, f);
    assert OpenAccess(w.mk, k.id, r) == OpenAccess(w.mk, k.id, r.(refresh := s.refresh));
    if s.refresh.None? {
      assert r.refresh == was.refresh && r.refresh.value.ciphertext.key != f.dek;
    } else {
      assert r == r.(refresh := s.refresh);
    }
  }

  lemma SameOpens(mk: Bytes, id: RowId, r: Row, s: Row)
    requires SameIdentity(r, s) && SameSecrets(r, s)
    ensures OpenAccess(mk, id, r) == OpenAccess(mk, id, s)
    ensures RowOpens(mk, id, r) <==> RowOpens(mk, id, s)
  {
  }

  // ------------------------------------------------------------------
  // Preservation
  // ------------------------------------------------------------------

  lemma SecretsWork(w: World, w': World, t: TaskId, op: TaskOp)
    requires SecretsInv(w) && TaskAt(w, t) && TaskNext(w, w', t, op)
    ensures SecretsInv(w')
  {
    WorkFrame(w, w', t, op);
    forall id | id in w'.rows ensures RowOpens(w'.mk, id, w'.rows[id]) && KeysDrawn(w'.usedKeys, w'.rows[id]) {
      if id != w.tasks[t].id { WorkOtherRow(w, w', t, op, id); } else { WorkDrawn(w, w', t, op); }
    }
    forall u | u in w'.tasks ensures TaskSound(w', w'.tasks[u]) { SoundWork(w, w', t, op, u); }
  }

  lemma SoundWork(w: World, w': World, t: TaskId, op: TaskOp, u: TaskId)
    requires SecretsInv(w) && TaskAt(w, t) && TaskNext(w, w', t, op) && u in w'.tasks
    ensures TaskSound(w', w'.tasks[u])
  {
    WorkFrame(w, w', t, op);
    assert TaskSound(w, w.tasks[u]);
    var id := w.tasks[u].id;
    assert id in w.rows ==> id in w'.rows && SameIdentity(w.rows[id], w'.rows[id]) by {
      if id in w.rows {
        if id != w.tasks[t].id { WorkOtherRow(w, w', t, op, id); } else { WorkOwnRow(w, w', t, op); }
      }
    }
    if u == t {
      WorkTask(w, w', t, op);
      WorkPc(w, w', t, op);
    }
  }

  lemma WorkDrawn(w: World, w': World, t: TaskId, op: TaskOp)
    requires SecretsInv(w) && TaskAt(w, t) && TaskNext(w, w', t, op) && w.tasks[t].id in w.rows
    ensures var me := w.tasks[t].id;
            me in w'.rows && RowOpens(w'.mk, me, w'.rows[me]) && KeysDrawn(w'.usedKeys, w'.rows[me])
  {
    WorkFrame(w, w', t, op);
    WorkOwnRow(w, w', t, op);
    var me := w.tasks[t].id;
    if Rotates(w, t, op) {
      RotatedOpens(w, t, op.rand);
      assert w'.usedKeys == w.usedKeys + {op.rand.dek};
    } else {
      SameOpens(w.mk, me, w.rows[me], w'.rows[me]);
    }
  }

  /** The program counters that carry a row on the full path carry one with a refresh token. */
  lemma WorkPc(w: World, w': World, t: TaskId, op: TaskOp)
    requires TaskAt(w, t) && TaskNext(w, w', t, op) && TaskSound(w, w.tasks[t])
    ensures t in w'.tasks
    ensures var pc := w'.tasks[t].pc;
            (pc.Loaded? || pc.Locked? || pc.Decrypted? || pc.Obtained? ==> pc.row.refresh.Some?)
  {
  }

  lemma SecretsFront(w: World, w': World, cb: CallbackId, op: CallbackOp)
    requires SecretsInv(w) && CallbackAt(w, cb) && CallbackNext(w, w', cb, op)
    ensures SecretsInv(w')
  {
    FrontFrame(w, w', cb, op);
    FrontOwners(w, w', cb, op);
    DrawnKey(w, w', cb, op);
    forall id | id in w'.rows ensures RowOpens(w'.mk, id, w'.rows[id]) && KeysDrawn(w'.usedKeys, w'.rows[id]) {
      FrontRow(w, w', cb, op, id);
      if id in w.rows { SameOpens(w.mk, id, w.rows[id], w'.rows[id]); }
      else { InsertedOpens(w, cb, id, op.rand); }
    }
    forall u | u in w'.tasks ensures TaskSound(w', w'.tasks[u]) {
      if w'.tasks[u].id in w'.rows { FrontRow(w, w', cb, op, w'.tasks[u].id); }
    }
  }

  lemma DrawnKey(w: World, w': World, cb: CallbackId, op: CallbackOp)
    requires CallbackAt(w, cb) && CallbackNext(w, w', cb, op)
    ensures forall id :: id in w'.rows && id !in w.rows ==> op.Persist? && op.rand.dek in w'.usedKeys
  {
  }

  lemma SoundOther(w: World, w': World, e: Event, u: TaskId)
    requires Next(w, w', e) && !e.Work? && !e.Front? && u in w'.tasks
    requires w.rows.Keys <= w.rowOwner.Keys && (u in w.tasks ==> TaskSound(w, w.tasks[u]))
    ensures TaskSound(w', w'.tasks[u])
  {
    OtherFrame(w, w', e);
    OtherTask(w, w', e, u);
    if w'.tasks[u].id in w.rows { OtherRow(w, w', e, w'.tasks[u].id); }
  }

  lemma SecretsOther(w: World, w': World, e: Event)
    requires SecretsInv(w) && Next(w, w', e) && !e.Work? && !e.Front?
    ensures SecretsInv(w')
  {
    OtherFrame(w, w', e);
    forall id | id in w'.rows ensures RowOpens(w'.mk, id, w'.rows[id]) && KeysDrawn(w'.usedKeys, w'.rows[id]) {
      OtherRow(w, w', e, id);
      SameOpens(w.mk, id, w.rows[id], w'.rows[id]);
    }
    forall u | u in w'.tasks ensures TaskSound(w', w'.tasks[u]) { SoundOther(w, w', e, u); }
  }

  lemma SecretsNext(w: World, w': World, e: Event)
    requires SecretsInv(w) && Next(w, w', e)
    ensures SecretsInv(w')
  {
    match e
    case Work(t, op) => SecretsWork(w, w', t, op);
    case Front(cb, cop) => SecretsFront(w, w', cb, cop);
    case _ => SecretsOther(w, w', e);
  }

  /** In every reachable world every stored row opens. */
  lemma {:induction false} EveryRowOpens(ws: seq<World>, es: seq<Event>, n: nat)
    requires IsRun(ws, es) && n < |ws|
    ensures SecretsInv(ws[n])
    ensures forall id :: id in ws[n].rows ==> RowOpens(ws[n].mk, id, ws[n].rows[id])
  {
    if n > 0 {
      EveryRowOpens(ws, es, n - 1);
      SecretsNext(ws[n - 1], ws[n], es[n - 1]);
    }
  }

  // ------------------------------------------------------------------
  // The consequence of a kept refresh ciphertext
  // ------------------------------------------------------------------

  /** What a task has read opens as the row did when it was read. */
  predicate SnapOpens(w: World, k: Task) {
    Snap(k.pc).Some? ==> RowOpens(w.mk, k.id, Snap(k.pc).value)
  }

  lemma SnapOpensNext(w: World, w': World, e: Event, t: TaskId)
    requires SecretsInv(w) && Next(w, w', e) && t in w'.tasks && (t in w.tasks ==> SnapOpens(w, w.tasks[t]))
    ensures SnapOpens(w', w'.tasks[t])
  {
    if e.Work? {
      SnapOpensWork(w, w', e.t, e.op, t);
    } else if e.Front? {
      FrontFrame(w, w', e.cb, e.cop);
    } else {
      OtherFrame(w, w', e);
      OtherTask(w, w', e, t);
    }
  }

  lemma SnapOpensWork(w: World, w': World, u: TaskId, op: TaskOp, t: TaskId)
    requires SecretsInv(w) && TaskAt(w, u) && TaskNext(w, w', u, op) && t in w'.tasks
    requires t in w.tasks ==> SnapOpens(w, w.tasks[t])
    ensures SnapOpens(w', w'.tasks[t])
  {
    WorkFrame(w, w', u, op);
    if t == u { WorkTask(w, w', u, op); }
  }

  lemma {:induction false} RunSnapOpens(ws: seq<World>, es: seq<Event>, n: nat, t: TaskId)
    requires IsRun(ws, es) && n < |ws| && t in ws[n].tasks
    ensures SnapOpens(ws[n], ws[n].tasks[t])
  {
    if n > 0 {
      EveryRowOpens(ws, es, n - 1);
      if t in ws[n - 1].tasks { RunSnapOpens(ws, es, n - 1, t); }
      SnapOpensNext(ws[n - 1], ws[n], es[n - 1], t);
    }
  }

  /**
   In every run, a full refresh goes on to the provider, or asks for the row to be marked CORRUPTED,
   exactly as the row it has read was sealed afresh or keeps an older refresh ciphertext.
   */
  lemma StaleReadingIsMarked(ws: seq<World>, es: seq<Event>, m: nat, t: TaskId)
    requires IsRun(ws, es) && m < |es| && es[m] == Work(t, Decrypt)
    ensures t in ws[m].tasks && ws[m].tasks[t].pc.Locked? && t in ws[m + 1].tasks
    ensures var was := ws[m].tasks[t].pc.row;
            ws[m + 1].tasks[t].pc == if was.h.stale then Marking(was, Corrupted) else Decrypted(was)
  {
    EveryRowOpens(ws, es, m);
    RunSnapOpens(ws, es, m, t);
    DecryptReading(ws[m], ws[m + 1], t);
  }

  lemma DecryptReading(w: World, w': World, t: TaskId)
    requires DecryptStep(w, w', t) && TaskSound(w, w.tasks[t]) && SnapOpens(w, w.tasks[t])
    ensures t in w'.tasks
    ensures var was := w.tasks[t].pc.row;
            w'.tasks[t].pc == if was.h.stale then Marking(was, Corrupted) else Decrypted(was)
  {
  }

  /** No event between the two worlds is a step of this task. */
  ghost predicate Resting(es: seq<Event>, m: nat, n: nat, t: TaskId)
    requires n <= |es|
  {
    forall k :: m <= k < n ==> !(es[k].Work? && es[k].t == t)
  }

  lemma TaskRests(w: World, w': World, e: Event, t: TaskId)
    requires Next(w, w', e) && t in w.tasks && !(e.Work? && e.t == t)
    ensures t in w'.tasks && w'.tasks[t] == w.tasks[t]
  {
    if e.Work? { WorkFrame(w, w', e.t, e.op); }
    else if e.Front? { FrontFrame(w, w', e.cb, e.cop); }
    else { StillThere(w, w', e, t); OtherTask(w, w', e, t); }
  }

  lemma StillThere(w: World, w': World, e: Event, t: TaskId)
    requires Next(w, w', e) && !e.Work? && !e.Front? && t in w.tasks
    ensures t in w'.tasks
  {
  }

  lemma {:induction false} RunRests(ws: seq<World>, es: seq<Event>, m: nat, n: nat, t: TaskId)
    requires IsRun(ws, es) && m <= n < |ws| && t in ws[m].tasks && Resting(es, m, n, t)
    ensures t in ws[n].tasks && ws[n].tasks[t] == ws[m].tasks[t]
    decreases n
  {
    if m < n {
      RunRests(ws, es, m, n - 1, t);
      TaskRests(ws[n - 1], ws[n], es[n - 1], t);
    }
  }

  /**
   Through the mark, with anything at all happening in between: a full refresh that marks its row
   after its decryption had read a stale row, and the row ends CORRUPTED if and only if at that moment
   no other row of its account is; otherwise nothing changes.
   */
  lemma StaleRowEndsCorruptedIff(ws: seq<World>, es: seq<Event>, m: nat, n: nat, t: TaskId)
    requires IsRun(ws, es) && m < n < |es| && es[m] == Work(t, Decrypt) && es[n] == Work(t, Mark(true))
    requires Resting(es, m + 1, n, t)
    requires t in ws[n].tasks && ws[n].tasks[t].id in ws[n].rows
    ensures t in ws[m].tasks && ws[m].tasks[t].pc.Locked? && ws[m].tasks[t].pc.row.h.stale
    ensures var id := ws[n].tasks[t].id;
            && id == ws[m].tasks[t].id && id in ws[n + 1].rows
            && (ws[n + 1].rows[id].status == Corrupted <==> !StatusTaken(ws[n].rows, id, Corrupted))
            && (StatusTaken(ws[n].rows, id, Corrupted) ==> ws[n + 1].rows == ws[n].rows)
  {
    StaleReadingIsMarked(ws, es, m, t);
    KeepsRow(ws, es, m, t);
    RunRests(ws, es, m + 1, n, t);
    MarkAt(ws, es, n, t);
  }

  lemma MarkAt(ws: seq<World>, es: seq<Event>, n: nat, t: TaskId)
    requires IsRun(ws, es) && n < |es| && es[n] == Work(t, Mark(true))
    requires t in ws[n].tasks && ws[n].tasks[t].id in ws[n].rows
    ensures ws[n].tasks[t].pc.Marking?
    ensures ws[n].tasks[t].pc.status == Corrupted ==>
              var id := ws[n].tasks[t].id;
              && id in ws[n + 1].rows
              && (ws[n + 1].rows[id].status == Corrupted <==> !StatusTaken(ws[n].rows, id, Corrupted))
              && (StatusTaken(ws[n].rows, id, Corrupted) ==> ws[n + 1].rows == ws[n].rows)
  {
    RunStatus(ws, es, n);
    MarkedCorrupted(ws[n], ws[n + 1], t);
  }

  lemma KeepsRow(ws: seq<World>, es: seq<Event>, m: nat, t: TaskId)
    requires IsRun(ws, es) && m < |es| && es[m] == Work(t, Decrypt)
    ensures t in ws[m].tasks && t in ws[m + 1].tasks && ws[m + 1].tasks[t].id == ws[m].tasks[t].id
  {
    WorkTask(ws[m], ws[m + 1], t, Decrypt);
  }

  lemma MarkedCorrupted(w: World, w': World, t: TaskId)
    requires Next(w, w', Work(t, Mark(true))) && UniqueOk(w.rows)
    requires t in w.tasks && w.tasks[t].id in w.rows
    ensures w.tasks[t].pc.Marking?
    ensures w.tasks[t].pc.status == Corrupted ==>
              var id := w.tasks[t].id;
              && id in w'.rows
              && (w'.rows[id].status == Corrupted <==> !StatusTaken(w.rows, id, Corrupted))
              && (StatusTaken(w.rows, id, Corrupted) ==> w'.rows == w.rows)
  {
    MarkOutcome(w, w', t);
    var id := w.tasks[t].id;
    if j :| j in w.rows && j != id && SameAccount(w.rows[id], w.rows[j]) && w.rows[j].status == Corrupted {
      assert !Clash(w.rows[id], w.rows[j]);
    }
  }
}
