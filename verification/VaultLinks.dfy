/** Links: which connection a row and a task that read it point to, in every run. */
module VaultLinks {
  import opened Wrappers
  import opened Vault
  import opened VaultFrames
  import opened VaultCallbacks

  /** A link a task has read is the link of a finished callback, so it never changes. */
  predicate SnapLinked(w: World, k: Task) {
    Snap(k.pc).Some? && Snap(k.pc).value.ext.Some? ==>
      && k.id in w.rowOwner && w.rowOwner[k.id] in w.callbacks
      && w.callbacks[w.rowOwner[k.id]].pc == Completed(k.id, Snap(k.pc).value.ext.value)
  }

  ghost predicate LinksInv(w: World) {
    CallbackInv(w) && forall t :: t in w.tasks ==> SnapLinked(w, w.tasks[t])
  }

  /** A connection belongs to one callback and through it to at most one linked row. */
  lemma LinkedOwner(w: World, id: RowId)
    requires OwnerInv(w) && id in w.rows && w.rows[id].ext.Some?
    ensures var x := w.rows[id].ext.value;
            && x in w.extOwner && id in w.rowOwner && w.extOwner[x] == w.rowOwner[id]
            && w.rowOwner[id] in w.callbacks && w.callbacks[w.rowOwner[id]].pc == Completed(id, x)
  {
    assert Settled(w, w.rowOwner[id], w.callbacks[w.rowOwner[id]].pc);
  }

  lemma OneRowPerLink(w: World, i: RowId, j: RowId)
    requires OwnerInv(w) && i in w.rows && j in w.rows
    requires w.rows[i].ext.Some? && w.rows[i].ext == w.rows[j].ext
    ensures i == j
  {
    LinkedOwner(w, i);
    LinkedOwner(w, j);
  }

  /** The row of a task that has read a link shows that link. */
  lemma SnapRow(w: World, k: Task)
    requires OwnerInv(w) && SnapLinked(w, k) && Snap(k.pc).Some? && Snap(k.pc).value.ext.Some?
    ensures k.id in w.rows && w.rows[k.id].ext == Snap(k.pc).value.ext
    ensures Snap(k.pc).value.ext.value in w.extOwner
    ensures w.extOwner[Snap(k.pc).value.ext.value] == w.rowOwner[k.id]
  {
    assert Settled(w, w.rowOwner[k.id], w.callbacks[w.rowOwner[k.id]].pc);
  }

  // ------------------------------------------------------------------
  // Steps and runs
  // ------------------------------------------------------------------

  lemma LinksWork(w: World, w': World, t: TaskId, op: TaskOp, u: TaskId)
    requires LinksInv(w) && TaskAt(w, t) && TaskNext(w, w', t, op) && u in w'.tasks
    ensures SnapLinked(w', w'.tasks[u])
  {
    WorkFrame(w, w', t, op);
    assert SnapLinked(w, w.tasks[u]);
    if u == t {
      WorkTask(w, w', t, op);
      var id := w.tasks[t].id;
      if id in w.rows && w.rows[id].ext.Some? { LinkedOwner(w, id); }
    }
  }

  lemma FinishedStays(w: World, w': World, cb: CallbackId, op: CallbackOp)
    requires CallbackAt(w, cb) && CallbackNext(w, w', cb, op) && w.callbacks[cb].pc.Completed?
    ensures cb in w'.callbacks && w'.callbacks[cb].pc == w.callbacks[cb].pc
  {
  }

  lemma LinksFront(w: World, w': World, cb: CallbackId, op: CallbackOp, u: TaskId)
    requires LinksInv(w) && CallbackAt(w, cb) && CallbackNext(w, w', cb, op) && u in w'.tasks
    ensures SnapLinked(w', w'.tasks[u])
  {
    FrontFrame(w, w', cb, op);
    FrontOwnDelta(w, w', cb, op);
    assert SnapLinked(w, w.tasks[u]);
    if w.callbacks[cb].pc.Completed? { FinishedStays(w, w', cb, op); }
  }

  lemma LinksOther(w: World, w': World, e: Event, u: TaskId)
    requires LinksInv(w) && Next(w, w', e) && !e.Work? && !e.Front? && u in w'.tasks
    ensures SnapLinked(w', w'.tasks[u])
  {
    assert w'.extOwner == w.extOwner && w'.rowOwner == w.rowOwner by { OtherFrame(w, w', e); }
    OtherTask(w, w', e, u);
    if u in w.tasks {
      assert SnapLinked(w, w.tasks[u]);
      ArriveOnly(w, w', e);
    }
  }

  lemma LinksNext(w: World, w': World, e: Event)
    requires LinksInv(w) && Next(w, w', e)
    ensures LinksInv(w')
  {
    CallbackInvNext(w, w', e);
    forall u | u in w'.tasks ensures SnapLinked(w', w'.tasks[u]) {
      if e.Work? { LinksWork(w, w', e.t, e.op, u); }
      else if e.Front? { LinksFront(w, w', e.cb, e.cop, u); }
      else { LinksOther(w, w', e, u); }
    }
  }

  lemma {:induction false} RunLinks(ws: seq<World>, es: seq<Event>, n: nat)
    requires IsRun(ws, es) && n < |ws|
    ensures LinksInv(ws[n])
  {
    if n > 0 {
      RunLinks(ws, es, n - 1);
      LinksNext(ws[n - 1], ws[n], es[n - 1]);
    }
  }
}
