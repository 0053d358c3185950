/**
 Whose tokens go where: in every run a row and its connection only ever hold access tokens that a
 provider issued for that row's own authorization.
 */
module VaultTokens {
  import opened Wrappers
  import opened Envelope
  import opened Vault
  import opened VaultFrames
  import opened VaultSecrets
  import opened VaultCallbacks
  import opened VaultLinks
  import opened VaultSync

  /** A provider gave this token to the authorization of this callback. */
  datatype Issue = Issue(cb: CallbackId, token: Bytes)

  /** By the code exchange of the callback, or by a refresh of the row it stored. */
  function NewIssues(w: World, e: Event): set<Issue> {
    if e.Front? && e.cop.Exchange? && e.cop.reply.Some? then {Issue(e.cb, e.cop.reply.value.access)}
    else if e.Work? && e.op.AskProvider? && e.op.answer.Granted? && e.t in w.tasks && w.tasks[e.t].id in w.rowOwner then
      {Issue(w.rowOwner[w.tasks[e.t].id], e.op.answer.parsed.access)}
    else {}
  }

  function Issued(ws: seq<World>, es: seq<Event>, n: nat): set<Issue>
    requires |ws| == |es| + 1 && n < |ws|
  {
    if n == 0 then {} else Issued(ws, es, n - 1) + NewIssues(ws[n - 1], es[n - 1])
  }

  // ------------------------------------------------------------------
  // The invariant
  // ------------------------------------------------------------------

  predicate RowIssued(w: World, issued: set<Issue>, id: RowId, r: Row) {
    id in w.rowOwner && Issue(w.rowOwner[id], Token(r)) in issued
  }

  predicate TaskIssued(w: World, issued: set<Issue>, k: Task) {
    && k.id in w.rowOwner
    && (Snap(k.pc).Some? ==> RowIssued(w, issued, k.id, Snap(k.pc).value))
    && (k.pc.Obtained? ==> Issue(w.rowOwner[k.id], k.pc.parsed.access) in issued)
    && (k.pc.Committed? ==> Issue(w.rowOwner[k.id], k.pc.access) in issued)
  }

  predicate CallbackIssued(issued: set<Issue>, cb: CallbackId, pc: CallbackPc) {
    && (pc.Exchanged? ==> Issue(cb, pc.parsed.access) in issued)
    && (pc.Persisted? ==> Issue(cb, pc.access) in issued)
  }

  predicate ConnIssued(w: World, issued: set<Issue>, x: ExtId) {
    x in w.conns && x in w.extOwner && Issue(w.extOwner[x], w.conns[x]) in issued
  }

  ghost predicate IssuedInv(w: World, issued: set<Issue>) {
    && (forall id :: id in w.rows ==> RowIssued(w, issued, id, w.rows[id]))
    && (forall t :: t in w.tasks ==> TaskIssued(w, issued, w.tasks[t]))
    && (forall c :: c in w.callbacks ==> CallbackIssued(issued, c, w.callbacks[c].pc))
    && (forall x :: x in w.conns ==> ConnIssued(w, issued, x))
  }

  // ------------------------------------------------------------------
  // Worker steps
  // ------------------------------------------------------------------

  lemma WorkRowIssued(w: World, w': World, t: TaskId, op: TaskOp, issued: set<Issue>)
    requires TaskAt(w, t) && TaskNext(w, w', t, op) && TaskIssued(w, issued, w.tasks[t])
    requires w.tasks[t].id in w.rows && RowIssued(w, issued, w.tasks[t].id, w.rows[w.tasks[t].id])
    ensures w.tasks[t].id in w'.rows && RowIssued(w, issued, w.tasks[t].id, w'.rows[w.tasks[t].id])
  {
    WorkOwnRow(w, w', t, op);
    if Rotates(w, t, op) {
      SealedToken(w, w.tasks[t].pc.row, w.tasks[t].id, w.tasks[t].pc.parsed, op.rand);
    }
  }

  lemma SealedToken(w: World, was: Row, id: RowId, p: Parsed, f: Fresh)
    requires |f.dek| == DEK_BYTES
    ensures Sealing(w, was.tenant, was.provider, id, p, f).access.ciphertext.plain == p.access
  {
  }

  lemma WorkTaskIssued(w: World, w': World, t: TaskId, op: TaskOp, issued: set<Issue>)
    requires TaskAt(w, t) && TaskNext(w, w', t, op) && TaskIssued(w, issued, w.tasks[t])
    requires w.tasks[t].id in w.rows ==> RowIssued(w, issued, w.tasks[t].id, w.rows[w.tasks[t].id])
    ensures t in w'.tasks && TaskIssued(w, issued + NewIssues(w, Work(t, op)), w'.tasks[t])
  {
    WorkTask(w, w', t, op);
    WorkHand(w, w', t, op);
  }

  /** The tokens a task carries: what the provider just answered, or what it carried before. */
  lemma WorkHand(w: World, w': World, t: TaskId, op: TaskOp)
    requires TaskAt(w, t) && TaskNext(w, w', t, op)
    ensures t in w'.tasks
    ensures var pc, pc' := w.tasks[t].pc, w'.tasks[t].pc;
            && (pc'.Obtained? ==> pc' == pc || (op.AskProvider? && op.answer == Granted(pc'.parsed)))
            && (pc'.Committed? ==> pc' == pc || (pc.Obtained? && pc'.access == pc.parsed.access))
  {
  }

  /** A push writes what its task carries, to the connection of its own row. */
  lemma WorkConnIssued(w: World, w': World, t: TaskId, op: TaskOp, issued: set<Issue>, x: ExtId)
    requires LinksInv(w) && IssuedInv(w, issued) && TaskAt(w, t) && TaskNext(w, w', t, op) && x in w'.conns
    ensures x in w.extOwner && Issue(w.extOwner[x], w'.conns[x]) in issued
  {
    var k := w.tasks[t];
    assert TaskIssued(w, issued, k) && SnapLinked(w, k);
    if x in w.conns && w'.conns[x] == w.conns[x] {
      assert ConnIssued(w, issued, x);
    } else {
      PushedToken(w, w', t, op, x);
      SnapRow(w, k);
    }
  }

  lemma PushedToken(w: World, w': World, t: TaskId, op: TaskOp, x: ExtId)
    requires TaskAt(w, t) && TaskNext(w, w', t, op) && x in w'.conns && (x in w.conns ==> w'.conns[x] != w.conns[x])
    ensures var pc := w.tasks[t].pc;
            && Snap(pc).Some? && Snap(pc).value.ext == Some(x)
            && w'.conns[x] == if pc.Committed? then pc.access else Token(Snap(pc).value)
  {
    if op.Push? && w.tasks[t].pc.ApLoaded? && OpenAccess(w.mk, w.tasks[t].id, w.tasks[t].pc.row).Ok? {
      OpenedToken(w.mk, w.tasks[t].id, w.tasks[t].pc.row);
    }
  }

  lemma RowAfterWork(w: World, w': World, t: TaskId, op: TaskOp, issued: set<Issue>, id: RowId)
    requires IssuedInv(w, issued) && TaskAt(w, t) && TaskNext(w, w', t, op) && id in w'.rows
    ensures RowIssued(w', issued, id, w'.rows[id])
  {
    assert w'.rowOwner == w.rowOwner && w'.rows.Keys == w.rows.Keys by { WorkFrame(w, w', t, op); }
    assert RowIssued(w, issued, id, w.rows[id]) && TaskIssued(w, issued, w.tasks[t]);
    if id == w.tasks[t].id { WorkRowIssued(w, w', t, op, issued); } else { WorkOtherRow(w, w', t, op, id); }
  }

  lemma TaskAfterWork(w: World, w': World, t: TaskId, op: TaskOp, issued: set<Issue>, u: TaskId)
    requires IssuedInv(w, issued) && TaskAt(w, t) && TaskNext(w, w', t, op) && u in w'.tasks
    ensures TaskIssued(w', issued + NewIssues(w, Work(t, op)), w'.tasks[u])
  {
    assert w'.rowOwner == w.rowOwner && w'.tasks == w.tasks[t := w'.tasks[t]] by { WorkFrame(w, w', t, op); }
    assert TaskIssued(w, issued, w.tasks[u]);
    if u == t { WorkTaskIssued(w, w', t, op, issued); }
  }

  lemma ConnAfterWork(w: World, w': World, t: TaskId, op: TaskOp, issued: set<Issue>, x: ExtId)
    requires LinksInv(w) && IssuedInv(w, issued) && TaskAt(w, t) && TaskNext(w, w', t, op) && x in w'.conns
    ensures ConnIssued(w', issued, x)
  {
    assert w'.extOwner == w.extOwner by { WorkFrame(w, w', t, op); }
    WorkConnIssued(w, w', t, op, issued, x);
  }

  lemma IssuedWork(w: World, w': World, t: TaskId, op: TaskOp, issued: set<Issue>)
    requires LinksInv(w) && IssuedInv(w, issued) && TaskAt(w, t) && TaskNext(w, w', t, op)
    ensures IssuedInv(w', issued + NewIssues(w, Work(t, op)))
  {
    assert w'.callbacks == w.callbacks by { WorkFrame(w, w', t, op); }
    forall id | id in w'.rows ensures RowIssued(w', issued, id, w'.rows[id]) { RowAfterWork(w, w', t, op, issued, id); }
    forall u | u in w'.tasks ensures TaskIssued(w', issued + NewIssues(w, Work(t, op)), w'.tasks[u]) {
      TaskAfterWork(w, w', t, op, issued, u);
    }
    forall x | x in w'.conns ensures ConnIssued(w', issued, x) { ConnAfterWork(w, w', t, op, issued, x); }
    Together(w', issued, issued + NewIssues(w, Work(t, op)));
  }

  /** More tokens issued, and no less known. */
  lemma Together(w: World, less: set<Issue>, more: set<Issue>)
    requires less <= more
    requires forall id :: id in w.rows ==> RowIssued(w, less, id, w.rows[id])
    requires forall t :: t in w.tasks ==> TaskIssued(w, more, w.tasks[t])
    requires forall c :: c in w.callbacks ==>
               CallbackIssued(less, c, w.callbacks[c].pc) || CallbackIssued(more, c, w.callbacks[c].pc)
    requires forall x :: x in w.conns ==> ConnIssued(w, less, x)
    ensures IssuedInv(w, more)
  {
  }

  // ------------------------------------------------------------------
  // Callback steps
  // ------------------------------------------------------------------

  /** What a callback step adds: a row with the exchanged token, a connection with the stored one. */
  lemma FrontIssues(w: World, w': World, cb: CallbackId, op: CallbackOp, issued: set<Issue>)
    requires CallbackAt(w, cb) && CallbackNext(w, w', cb, op) && CallbackIssued(issued, cb, w.callbacks[cb].pc)
    ensures cb in w'.callbacks
            && CallbackIssued(issued + NewIssues(w, Front(cb, op)), cb, w'.callbacks[cb].pc)
  {
  }

  lemma FrontConnIssued(w: World, w': World, cb: CallbackId, op: CallbackOp, issued: set<Issue>, x: ExtId)
    requires CallbackAt(w, cb) && CallbackNext(w, w', cb, op) && CallbackIssued(issued, cb, w.callbacks[cb].pc)
    requires x in w'.conns && (x in w.conns ==> ConnIssued(w, issued, x))
    ensures ConnIssued(w', issued, x)
  {
  }

  lemma FrontRowIssued(w: World, w': World, cb: CallbackId, op: CallbackOp, issued: set<Issue>, id: RowId)
    requires CallbackAt(w, cb) && CallbackNext(w, w', cb, op) && CallbackIssued(issued, cb, w.callbacks[cb].pc)
    requires w.rows.Keys <= w.rowOwner.Keys && id in w'.rows
    requires id in w.rows ==> RowIssued(w, issued, id, w.rows[id])
    ensures RowIssued(w', issued, id, w'.rows[id])
  {
    FrontOwnDelta(w, w', cb, op);
    FrontRow(w, w', cb, op, id);
    if id !in w.rows { SealedToken(w, w'.rows[id], id, w.callbacks[cb].pc.parsed, op.rand); }
  }

  lemma TaskAfterFront(w: World, w': World, cb: CallbackId, op: CallbackOp, issued: set<Issue>, t: TaskId)
    requires IssuedInv(w, issued) && CallbackAt(w, cb) && CallbackNext(w, w', cb, op) && t in w'.tasks
    ensures TaskIssued(w', issued, w'.tasks[t])
  {
    assert w'.tasks == w.tasks by { FrontFrame(w, w', cb, op); }
    assert TaskIssued(w, issued, w.tasks[t]);
    OwnersKept(w, w', cb, op, w.tasks[t].id);
  }

  lemma CallbackAfterFront(w: World, w': World, cb: CallbackId, op: CallbackOp, issued: set<Issue>, c: CallbackId)
    requires IssuedInv(w, issued) && CallbackAt(w, cb) && CallbackNext(w, w', cb, op) && c in w'.callbacks
    ensures CallbackIssued(issued + NewIssues(w, Front(cb, op)), c, w'.callbacks[c].pc)
  {
    assert w'.callbacks == w.callbacks[cb := w'.callbacks[cb]] by { FrontFrame(w, w', cb, op); }
    assert CallbackIssued(issued, c, w.callbacks[c].pc);
    if c == cb { FrontIssues(w, w', cb, op, issued); }
  }

  lemma IssuedFront(w: World, w': World, cb: CallbackId, op: CallbackOp, issued: set<Issue>)
    requires OwnerInv(w) && IssuedInv(w, issued) && CallbackAt(w, cb) && CallbackNext(w, w', cb, op)
    ensures IssuedInv(w', issued + NewIssues(w, Front(cb, op)))
  {
    assert CallbackIssued(issued, cb, w.callbacks[cb].pc);
    forall id | id in w'.rows ensures RowIssued(w', issued, id, w'.rows[id]) {
      FrontRowIssued(w, w', cb, op, issued, id);
    }
    forall t | t in w'.tasks ensures TaskIssued(w', issued + NewIssues(w, Front(cb, op)), w'.tasks[t]) {
      TaskAfterFront(w, w', cb, op, issued, t);
    }
    forall c | c in w'.callbacks ensures CallbackIssued(issued + NewIssues(w, Front(cb, op)), c, w'.callbacks[c].pc) {
      CallbackAfterFront(w, w', cb, op, issued, c);
    }
    forall x | x in w'.conns ensures ConnIssued(w', issued, x) {
      assert x in w.conns ==> ConnIssued(w, issued, x);
      FrontConnIssued(w, w', cb, op, issued, x);
    }
    Together(w', issued, issued + NewIssues(w, Front(cb, op)));
  }

  lemma OwnersKept(w: World, w': World, cb: CallbackId, op: CallbackOp, id: RowId)
    requires CallbackAt(w, cb) && CallbackNext(w, w', cb, op) && id in w.rowOwner
    ensures id in w'.rowOwner && w'.rowOwner[id] == w.rowOwner[id]
  {
  }

  // ------------------------------------------------------------------
  // Other events and runs
  // ------------------------------------------------------------------

  lemma IssuedOther(w: World, w': World, e: Event, issued: set<Issue>)
    requires IssuedInv(w, issued) && Next(w, w', e) && !e.Work? && !e.Front?
    ensures IssuedInv(w', issued)
  {
    OtherFrame(w, w', e);
    forall id | id in w'.rows ensures RowIssued(w', issued, id, w'.rows[id]) { OtherRow(w, w', e, id); }
    forall t | t in w'.tasks ensures TaskIssued(w', issued, w'.tasks[t]) { TaskAfterOther(w, w', e, issued, t); }
    forall c | c in w'.callbacks ensures CallbackIssued(issued, c, w'.callbacks[c].pc) { ArriveOnly(w, w', e); }
    forall x | x in w'.conns ensures ConnIssued(w', issued, x) { assert ConnIssued(w, issued, x); }
  }

  lemma TaskAfterOther(w: World, w': World, e: Event, issued: set<Issue>, t: TaskId)
    requires IssuedInv(w, issued) && Next(w, w', e) && !e.Work? && !e.Front? && t in w'.tasks
    ensures TaskIssued(w', issued, w'.tasks[t])
  {
    assert w'.rowOwner == w.rowOwner by { OtherFrame(w, w', e); }
    OtherTask(w, w', e, t);
    if t in w.tasks {
      assert TaskIssued(w, issued, w.tasks[t]);
    } else {
      assert RowIssued(w, issued, e.ids[t], w.rows[e.ids[t]]);
    }
  }

  lemma IssuedNext(w: World, w': World, e: Event, issued: set<Issue>)
    requires LinksInv(w) && IssuedInv(w, issued) && Next(w, w', e)
    ensures IssuedInv(w', issued + NewIssues(w, e))
  {
    if e.Work? { IssuedWork(w, w', e.t, e.op, issued); }
    else if e.Front? { IssuedFront(w, w', e.cb, e.cop, issued); }
    else {
      IssuedOther(w, w', e, issued);
      assert NewIssues(w, e) == {} && issued + {} == issued;
    }
  }

  lemma {:induction false} RunIssued(ws: seq<World>, es: seq<Event>, n: nat)
    requires IsRun(ws, es) && n < |ws|
    ensures IssuedInv(ws[n], Issued(ws, es, n))
  {
    if n > 0 {
      RunIssued(ws, es, n - 1);
      IssuedExtends(ws, es, n);
    }
  }

  lemma IssuedExtends(ws: seq<World>, es: seq<Event>, n: nat)
    requires IsRun(ws, es) && 0 < n < |ws| && IssuedInv(ws[n - 1], Issued(ws, es, n - 1))
    ensures IssuedInv(ws[n], Issued(ws, es, n))
  {
    RunLinks(ws, es, n - 1);
    IssuedNext(ws[n - 1], ws[n], es[n - 1], Issued(ws, es, n - 1));
  }

  /** Issued means that some earlier event issued it. */
  lemma {:induction false} IssuedBy(ws: seq<World>, es: seq<Event>, n: nat, i: Issue)
    requires |ws| == |es| + 1 && n < |ws|
    ensures i in Issued(ws, es, n) <==> exists k :: 0 <= k < n && i in NewIssues(ws[k], es[k])
  {
    if n > 0 { IssuedBy(ws, es, n - 1, i); }
  }

  /**
   In every run, timely or not: what a connection holds was issued for the authorization whose
   callback created the connection, and what a linked row holds for that same one.  So no tenant's
   token ever reaches another's connection.
   */
  lemma OnlyOwnTokens(ws: seq<World>, es: seq<Event>, n: nat, x: ExtId)
    requires IsRun(ws, es) && n < |ws| && x in ws[n].conns
    ensures x in ws[n].extOwner
    ensures exists k :: 0 <= k < n && Issue(ws[n].extOwner[x], ws[n].conns[x]) in NewIssues(ws[k], es[k])
    ensures forall id :: id in ws[n].rows && ws[n].rows[id].ext == Some(x) ==>
              && id in ws[n].rowOwner && ws[n].rowOwner[id] == ws[n].extOwner[x]
              && Issue(ws[n].extOwner[x], Token(ws[n].rows[id])) in Issued(ws, es, n)
  {
    RunIssued(ws, es, n);
    RunLinks(ws, es, n);
    assert ConnIssued(ws[n], Issued(ws, es, n), x);
    IssuedBy(ws, es, n, Issue(ws[n].extOwner[x], ws[n].conns[x]));
    forall id | id in ws[n].rows && ws[n].rows[id].ext == Some(x)
      ensures id in ws[n].rowOwner && ws[n].rowOwner[id] == ws[n].extOwner[x]
              && Issue(ws[n].extOwner[x], Token(ws[n].rows[id])) in Issued(ws, es, n)
    {
      LinkedOwner(ws[n], id);
      assert RowIssued(ws[n], Issued(ws, es, n), id, ws[n].rows[id]);
    }
  }
}
