/** Callbacks: one winner per state token, and what the winner leaves behind. */
module VaultCallbacks {
  import opened Wrappers
  import opened Envelope
  import opened Vault
  import opened VaultFrames

  /** The callback got past the nonce consume. */
  predicate HasWon(pc: CallbackPc) {
    match pc
    case Checked => false
    case Failing(won) => won
    case Failed(won) => won
    case _ => true
  }

  /** The vault row a callback has inserted. */
  function RowOf(pc: CallbackPc): Option<RowId> {
    match pc
    case Persisted(id, _) => Some(id)
    case Linked(id, _) => Some(id)
    case Undoing(id, _) => Some(id)
    case Compensating(id) => Some(id)
    case Completed(id, _) => Some(id)
    case Compensated(id) => Some(id)
    case Abandoned(id) => Some(id)
    case _ => None
  }

  /** The Activepieces connection it has created and not given up. */
  function ExtOf(pc: CallbackPc): Option<ExtId> {
    match pc
    case Linked(_, ext) => Some(ext)
    case Undoing(_, ext) => Some(ext)
    case Completed(_, ext) => Some(ext)
    case _ => None
  }

  // ------------------------------------------------------------------
  // The nonce race
  // ------------------------------------------------------------------

  ghost predicate OneWinner(w: World) {
    forall a, b | a in w.callbacks && b in w.callbacks && HasWon(w.callbacks[a].pc) && HasWon(w.callbacks[b].pc) ::
      w.callbacks[a].nonce == w.callbacks[b].nonce ==> a == b
  }

  predicate Spent(w: World, n: Nonce) {
    n in w.usedNonces && n !in w.nonces && (n in w.sagas ==> w.sagas[n].registered)
  }

  ghost predicate NonceInv(w: World) {
    && OneWinner(w)
    && (forall c :: c in w.callbacks ==> w.callbacks[c].nonce in w.usedNonces)
    && (forall c :: c in w.callbacks && HasWon(w.callbacks[c].pc) ==> Spent(w, w.callbacks[c].nonce))
    && (forall n :: n in w.sagas ==> n in w.usedNonces)
    && (forall n :: n in w.nonces ==> n in w.usedNonces && (n in w.sagas ==> w.sagas[n].registered))
  }

  /** A callback step, as far as nonces are concerned: only a consume that found the nonce wins. */
  ghost predicate NonceDelta(w: World, w': World, cb: CallbackId) {
    && cb in w.callbacks && cb in w'.callbacks && w'.callbacks == w.callbacks[cb := w'.callbacks[cb]]
    && w'.usedNonces == w.usedNonces
    && w'.callbacks[cb].nonce == w.callbacks[cb].nonce
    && (forall n :: n in w'.sagas ==> n in w.sagas && w'.sagas[n].registered == w.sagas[n].registered)
    && (forall n :: n in w'.nonces ==> n in w.nonces)
    && (HasWon(w'.callbacks[cb].pc) && !HasWon(w.callbacks[cb].pc) ==>
          w.callbacks[cb].nonce in w.nonces && w.callbacks[cb].nonce !in w'.nonces)
  }

  lemma FrontNonce(w: World, w': World, cb: CallbackId, op: CallbackOp)
    requires CallbackAt(w, cb) && CallbackNext(w, w', cb, op)
    ensures NonceDelta(w, w', cb)
  {
    FrontFrame(w, w', cb, op);
  }

  lemma NonceFront(w: World, w': World, cb: CallbackId)
    requires NonceInv(w) && NonceDelta(w, w', cb)
    ensures NonceInv(w')
  {
  }

  /** What an initiate, a registration, a denial or an arriving callback does to nonces and sagas. */
  lemma NonceOther(w: World, w': World, e: Event)
    requires NonceInv(w) && Next(w, w', e) && (e.Initiate? || e.Denied? || e.Arrive?)
    ensures NonceInv(w')
  {
  }

  lemma NonceRegister(w: World, w': World, nonce: Nonce, reg: RegOutcome)
    requires NonceInv(w) && RegisterStep(w, w', nonce, reg)
    ensures NonceInv(w')
  {
  }

  lemma NonceQuiet(w: World, w': World, e: Event)
    requires NonceInv(w) && Next(w, w', e) && (e.Tick? || e.Claim? || e.Deliver? || e.Revoke?)
    ensures NonceInv(w')
  {
    QuietFrame(w, w', e);
    NonceSame(w, w');
  }

  lemma QuietFrame(w: World, w': World, e: Event)
    requires Next(w, w', e) && (e.Tick? || e.Claim? || e.Deliver? || e.Revoke?)
    ensures w'.callbacks == w.callbacks && w'.sagas == w.sagas && w'.nonces == w.nonces && w'.usedNonces == w.usedNonces
  {
  }

  lemma NonceSame(w: World, w': World)
    requires NonceInv(w)
    requires w'.callbacks == w.callbacks && w'.sagas == w.sagas &&
             w'.nonces == w.nonces && w'.usedNonces == w.usedNonces
    ensures NonceInv(w')
  {
  }

  lemma NonceNext(w: World, w': World, e: Event)
    requires NonceInv(w) && Next(w, w', e)
    ensures NonceInv(w')
  {
    if e.Work? { WorkFrame(w, w', e.t, e.op); }
    else if e.Front? {
      FrontNonce(w, w', e.cb, e.cop);
      NonceFront(w, w', e.cb);
    } else if e.Register? { NonceRegister(w, w', e.nonce, e.reg); }
    else if e.Initiate? || e.Denied? || e.Arrive? { NonceOther(w, w', e); }
    else { NonceQuiet(w, w', e); }
  }

  // ------------------------------------------------------------------
  // Rows and connections belong to winners
  // ------------------------------------------------------------------

  /** What one callback owns, told from its program counter. */
  predicate Settled(w: World, cb: CallbackId, pc: CallbackPc) {
    && (RowOf(pc).Some? ==>
          var id := RowOf(pc).value;
          && id in w.rowOwner && w.rowOwner[id] == cb
          && (id in w.rows <==> !pc.Compensated?)
          && (id in w.rows ==> w.rows[id].ext == if pc.Completed? then Some(pc.ext) else None))
    && (ExtOf(pc).Some? ==> ExtOf(pc).value in w.extOwner && w.extOwner[ExtOf(pc).value] == cb)
    && (pc.Linked? || pc.Completed? ==> pc.ext in w.conns)
  }

  ghost predicate OwnerInv(w: World) {
    && (forall id :: id in w.rows ==> id in w.rowOwner)
    && (forall id :: id in w.rowOwner ==> w.rowOwner[id] in w.callbacks
                                          && RowOf(w.callbacks[w.rowOwner[id]].pc) == Some(id))
    && (forall x :: x in w.conns ==> x in w.extOwner)
    && (forall x :: x in w.extOwner ==> w.extOwner[x] in w.callbacks && PastLink(w.callbacks[w.extOwner[x]].pc))
    && (forall x, y :: x in w.extOwner && y in w.extOwner && w.extOwner[x] == w.extOwner[y] ==> x == y)
    && (forall c :: c in w.callbacks ==> Settled(w, c, w.callbacks[c].pc))
  }

  predicate PastLink(pc: CallbackPc) { RowOf(pc).Some? && !pc.Persisted? }

  /** A callback step, seen from its own program counter. */
  ghost predicate OwnKept(w: World, w': World, cb: CallbackId) {
    && cb in w.callbacks && cb in w'.callbacks && Settled(w', cb, w'.callbacks[cb].pc)
    && (RowOf(w.callbacks[cb].pc).Some? ==> RowOf(w'.callbacks[cb].pc) == RowOf(w.callbacks[cb].pc))
    && (PastLink(w.callbacks[cb].pc) ==> PastLink(w'.callbacks[cb].pc))
  }

  /** The steps that touch the token table or the remote connections. */
  predicate Writes(op: CallbackOp) { op.Persist? || op.Link? || op.Finalize? }

  lemma FrontOwn(w: World, w': World, cb: CallbackId, op: CallbackOp)
    requires CallbackAt(w, cb) && CallbackNext(w, w', cb, op)
    requires Settled(w, cb, w.callbacks[cb].pc)
    requires forall id :: id in w.rows ==> id in w.rowOwner
    ensures OwnKept(w, w', cb)
  {
    if Writes(op) { FrontOwnWriting(w, w', cb, op); }
    else if op.Undo? || op.Compensate? { FrontOwnRemoving(w, w', cb, op); }
    else { FrontOwnOther(w, w', cb, op); }
  }

  lemma FrontOwnWriting(w: World, w': World, cb: CallbackId, op: CallbackOp)
    requires CallbackAt(w, cb) && CallbackNext(w, w', cb, op) && Writes(op)
    requires Settled(w, cb, w.callbacks[cb].pc)
    requires forall id :: id in w.rows ==> id in w.rowOwner
    ensures OwnKept(w, w', cb)
  {
  }

  lemma FrontOwnRemoving(w: World, w': World, cb: CallbackId, op: CallbackOp)
    requires CallbackAt(w, cb) && CallbackNext(w, w', cb, op) && (op.Undo? || op.Compensate?)
    requires Settled(w, cb, w.callbacks[cb].pc)
    ensures OwnKept(w, w', cb)
  {
  }

  lemma FrontOwnOther(w: World, w': World, cb: CallbackId, op: CallbackOp)
    requires CallbackAt(w, cb) && CallbackNext(w, w', cb, op) && !Writes(op) && !op.Undo? && !op.Compensate?
    requires Settled(w, cb, w.callbacks[cb].pc)
    ensures OwnKept(w, w', cb)
  {
  }

  /** And seen from the tables: it draws ids for itself and changes only what it owns. */
  ghost predicate OwnDelta(w: World, w': World, cb: CallbackId) {
    && cb in w.callbacks && cb in w'.callbacks && w'.callbacks == w.callbacks[cb := w'.callbacks[cb]]
    && (forall id :: id in w.rowOwner ==> id in w'.rowOwner && w'.rowOwner[id] == w.rowOwner[id])
    && (forall id :: id in w'.rowOwner && id !in w.rowOwner ==>
          w'.rowOwner[id] == cb && RowOf(w'.callbacks[cb].pc) == Some(id) && RowOf(w.callbacks[cb].pc).None?)
    && (forall id :: id in w'.rows ==> id in w'.rowOwner)
    && (forall id :: id in w.rows && RowOf(w.callbacks[cb].pc) != Some(id) ==>
          id in w'.rows && w'.rows[id].ext == w.rows[id].ext)
    && (forall id :: id in w'.rows && id !in w.rows ==> id !in w.rowOwner)
  }

  ghost predicate ExtDelta(w: World, w': World, cb: CallbackId) {
    && cb in w.callbacks && cb in w'.callbacks
    && (forall x :: x in w.extOwner ==> x in w'.extOwner && w'.extOwner[x] == w.extOwner[x])
    && (forall x :: x in w'.extOwner && x !in w.extOwner ==>
          w'.extOwner[x] == cb && w.callbacks[cb].pc.Persisted? && PastLink(w'.callbacks[cb].pc))
    && (forall x, y :: x in w'.extOwner && y in w'.extOwner && x !in w.extOwner && y !in w.extOwner ==> x == y)
    && (forall x :: x in w'.conns ==> x in w.conns || x in w'.extOwner)
    && (forall x :: x in w.conns && ExtOf(w.callbacks[cb].pc) != Some(x) ==> x in w'.conns)
  }

  lemma FrontOwnDelta(w: World, w': World, cb: CallbackId, op: CallbackOp)
    requires CallbackAt(w, cb) && CallbackNext(w, w', cb, op)
    requires forall id :: id in w.rows ==> id in w.rowOwner
    ensures OwnDelta(w, w', cb)
  {
    FrontFrame(w, w', cb, op);
    if op.Persist? { PersistDelta(w, w', cb, op); } else { OtherDelta(w, w', cb, op); }
  }

  lemma PersistDelta(w: World, w': World, cb: CallbackId, op: CallbackOp)
    requires CallbackAt(w, cb) && CallbackNext(w, w', cb, op) && op.Persist?
    requires forall id :: id in w.rows ==> id in w.rowOwner
    ensures OwnDelta(w, w', cb)
  {
  }

  lemma OtherDelta(w: World, w': World, cb: CallbackId, op: CallbackOp)
    requires CallbackAt(w, cb) && CallbackNext(w, w', cb, op) && !op.Persist?
    requires forall id :: id in w.rows ==> id in w.rowOwner
    ensures OwnDelta(w, w', cb)
  {
  }

  lemma FrontExtDelta(w: World, w': World, cb: CallbackId, op: CallbackOp)
    requires CallbackAt(w, cb) && CallbackNext(w, w', cb, op)
    ensures ExtDelta(w, w', cb)
  {
  }

  lemma SettledElsewhere(w: World, w': World, cb: CallbackId, c: CallbackId)
    requires OwnDelta(w, w', cb) && ExtDelta(w, w', cb) && c in w.callbacks && c != cb
    requires Settled(w, cb, w.callbacks[cb].pc) && Settled(w, c, w.callbacks[c].pc)
    ensures c in w'.callbacks && Settled(w', c, w'.callbacks[c].pc)
  {
  }

  lemma OwnerFront(w: World, w': World, cb: CallbackId)
    requires OwnerInv(w) && OwnDelta(w, w', cb) && ExtDelta(w, w', cb)
    requires Settled(w', cb, w'.callbacks[cb].pc)
    requires RowOf(w.callbacks[cb].pc).Some? ==> RowOf(w'.callbacks[cb].pc) == RowOf(w.callbacks[cb].pc)
    requires PastLink(w.callbacks[cb].pc) ==> PastLink(w'.callbacks[cb].pc)
    ensures OwnerInv(w')
  {
    forall c | c in w'.callbacks ensures Settled(w', c, w'.callbacks[c].pc) {
      if c != cb { SettledElsewhere(w, w', cb, c); }
    }
  }

  lemma OwnerAfterFront(w: World, w': World, cb: CallbackId, op: CallbackOp)
    requires OwnerInv(w) && CallbackAt(w, cb) && CallbackNext(w, w', cb, op)
    ensures OwnerInv(w') && OwnDelta(w, w', cb) && ExtDelta(w, w', cb)
  {
    FrontOwn(w, w', cb, op);
    FrontOwnDelta(w, w', cb, op);
    FrontExtDelta(w, w', cb, op);
    OwnerFront(w, w', cb);
  }

  lemma WorkConns(w: World, w': World, t: TaskId, op: TaskOp)
    requires TaskAt(w, t) && TaskNext(w, w', t, op)
    ensures forall x :: x in w.conns ==> x in w'.conns
    ensures forall x :: x in w'.conns && x !in w.conns ==>
              Snap(w.tasks[t].pc).Some? && Snap(w.tasks[t].pc).value.ext == Some(x)
    ensures forall id :: id in w.rows ==> id in w'.rows && w'.rows[id].ext == w.rows[id].ext
  {
    WorkFrame(w, w', t, op);
    forall id | id in w.rows ensures id in w'.rows && w'.rows[id].ext == w.rows[id].ext {
      if id == w.tasks[t].id { WorkOwnRow(w, w', t, op); } else { WorkOtherRow(w, w', t, op, id); }
    }
  }

  /** A task pushes only to connections that some callback created. */
  ghost predicate SnapsOwned(w: World) {
    && (forall t :: t in w.tasks && Snap(w.tasks[t].pc).Some? && Snap(w.tasks[t].pc).value.ext.Some?
          ==> Snap(w.tasks[t].pc).value.ext.value in w.extOwner)
    && (forall id :: id in w.rows && w.rows[id].ext.Some? ==> w.rows[id].ext.value in w.extOwner)
  }

  /** The other actors only add checked callbacks and values of connections that already have an owner. */
  ghost predicate Bystander(w: World, w': World) {
    && w'.rowOwner == w.rowOwner && w'.extOwner == w.extOwner
    && (forall id :: id in w'.rows <==> id in w.rows)
    && (forall id :: id in w.rows ==> id in w'.rows && w'.rows[id].ext == w.rows[id].ext)
    && (forall x :: x in w.conns ==> x in w'.conns)
    && (forall x :: x in w'.conns ==> x in w'.extOwner)
    && (forall c :: c in w.callbacks ==> c in w'.callbacks && w'.callbacks[c].pc == w.callbacks[c].pc)
    && (forall c :: c in w'.callbacks && c !in w.callbacks ==> w'.callbacks[c].pc == Checked)
  }

  lemma OwnerBystander(w: World, w': World)
    requires OwnerInv(w) && Bystander(w, w')
    ensures OwnerInv(w')
  {
    forall c | c in w'.callbacks ensures Settled(w', c, w'.callbacks[c].pc) {
      if c in w.callbacks { assert Settled(w, c, w.callbacks[c].pc); }
    }
  }

  lemma OwnerWork(w: World, w': World, t: TaskId, op: TaskOp)
    requires OwnerInv(w) && SnapsOwned(w) && TaskAt(w, t) && TaskNext(w, w', t, op)
    ensures Bystander(w, w') && SnapsOwned(w')
  {
    WorkFrame(w, w', t, op);
    WorkTask(w, w', t, op);
    WorkConns(w, w', t, op);
  }

  lemma SnapsFront(w: World, w': World, cb: CallbackId)
    requires SnapsOwned(w) && OwnerInv(w') && ExtDelta(w, w', cb) && w'.tasks == w.tasks
    ensures SnapsOwned(w')
  {
    forall id | id in w'.rows && w'.rows[id].ext.Some? ensures w'.rows[id].ext.value in w'.extOwner {
      var c := w'.rowOwner[id];
      assert Settled(w', c, w'.callbacks[c].pc);
    }
  }

  lemma ArriveOnly(w: World, w': World, e: Event)
    requires Next(w, w', e) && !e.Work? && !e.Front?
    ensures forall c :: c in w.callbacks ==> c in w'.callbacks && w'.callbacks[c].pc == w.callbacks[c].pc
    ensures forall c :: c in w'.callbacks && c !in w.callbacks ==> w'.callbacks[c].pc == Checked
  {
  }

  lemma BystanderOther(w: World, w': World, e: Event)
    requires OwnerInv(w) && Next(w, w', e) && !e.Work? && !e.Front?
    ensures Bystander(w, w')
  {
    OtherFrame(w, w', e);
    ArriveOnly(w, w', e);
    forall id | id in w.rows ensures id in w'.rows && w'.rows[id].ext == w.rows[id].ext { OtherRow(w, w', e, id); }
  }

  lemma SnapsOther(w: World, w': World, e: Event)
    requires SnapsOwned(w) && Bystander(w, w') && Next(w, w', e) && !e.Work? && !e.Front?
    ensures SnapsOwned(w')
  {
    forall t | t in w'.tasks && Snap(w'.tasks[t].pc).Some? && Snap(w'.tasks[t].pc).value.ext.Some?
      ensures Snap(w'.tasks[t].pc).value.ext.value in w'.extOwner
    {
      OtherTask(w, w', e, t);
    }
  }

  ghost predicate CallbackInv(w: World) { NonceInv(w) && OwnerInv(w) && SnapsOwned(w) }

  lemma CallbackInvNext(w: World, w': World, e: Event)
    requires CallbackInv(w) && Next(w, w', e)
    ensures CallbackInv(w')
  {
    NonceNext(w, w', e);
    OwnerNext(w, w', e);
  }

  lemma OwnerNext(w: World, w': World, e: Event)
    requires OwnerInv(w) && SnapsOwned(w) && Next(w, w', e)
    ensures OwnerInv(w') && SnapsOwned(w')
  {
    if e.Work? {
      OwnerWork(w, w', e.t, e.op);
      OwnerBystander(w, w');
    } else if e.Front? {
      OwnerAfterFront(w, w', e.cb, e.cop);
      FrontFrame(w, w', e.cb, e.cop);
      SnapsFront(w, w', e.cb);
    } else {
      BystanderOther(w, w', e);
      OwnerBystander(w, w');
      SnapsOther(w, w', e);
    }
  }

  // ------------------------------------------------------------------
  // Runs
  // ------------------------------------------------------------------

  lemma {:induction false} RunCallbacks(ws: seq<World>, es: seq<Event>, n: nat)
    requires IsRun(ws, es) && n < |ws|
    ensures CallbackInv(ws[n])
  {
    if n > 0 {
      RunCallbacks(ws, es, n - 1);
      CallbackInvNext(ws[n - 1], ws[n], es[n - 1]);
    }
  }

  /** Of any number of interleaved callbacks on one state token, at most one passes the nonce consume. */
  lemma AtMostOneWinner(ws: seq<World>, es: seq<Event>, n: nat, a: CallbackId, b: CallbackId)
    requires IsRun(ws, es) && n < |ws| && a in ws[n].callbacks && b in ws[n].callbacks
    requires ws[n].callbacks[a].nonce == ws[n].callbacks[b].nonce
    requires HasWon(ws[n].callbacks[a].pc) && HasWon(ws[n].callbacks[b].pc)
    ensures a == b
  {
    RunCallbacks(ws, es, n);
  }

  /** Every vault row and every Activepieces connection stems from a winner, one of each per token. */
  lemma LosersLeaveNoTrace(ws: seq<World>, es: seq<Event>, n: nat)
    requires IsRun(ws, es) && n < |ws|
    ensures var w := ws[n];
            && (forall id :: id in w.rows ==> id in w.rowOwner && w.rowOwner[id] in w.callbacks
                                              && HasWon(w.callbacks[w.rowOwner[id]].pc))
            && (forall x :: x in w.conns ==> x in w.extOwner && w.extOwner[x] in w.callbacks
                                             && HasWon(w.callbacks[w.extOwner[x]].pc))
    ensures var w := ws[n];
            && (forall i, j | i in w.rows && j in w.rows ::
                  w.callbacks[w.rowOwner[i]].nonce == w.callbacks[w.rowOwner[j]].nonce ==> i == j)
            && (forall x, y | x in w.conns && y in w.conns ::
                  w.callbacks[w.extOwner[x]].nonce == w.callbacks[w.extOwner[y]].nonce ==> x == y)
  {
    RunCallbacks(ws, es, n);
  }

  /** Only the winner that inserted a row deletes it, and only by a committed compensation. */
  lemma OnlyCompensationDeletes(w: World, w': World, e: Event, id: RowId)
    requires CallbackInv(w) && Next(w, w', e) && id in w.rows && id !in w'.rows
    ensures e == Front(w.rowOwner[id], Compensate(true))
  {
    if e.Work? { WorkFrame(w, w', e.t, e.op); }
    else if e.Front? { DeletedByFront(w, w', e.cb, e.cop, id); }
    else { OtherFrame(w, w', e); }
  }

  lemma DeletedByFront(w: World, w': World, cb: CallbackId, op: CallbackOp, id: RowId)
    requires CallbackAt(w, cb) && CallbackNext(w, w', cb, op) && id in w.rows && id !in w'.rows
    requires Settled(w, cb, w.callbacks[cb].pc)
    ensures op == Compensate(true) && id in w.rowOwner && w.rowOwner[id] == cb
  {
  }

  /**
   A winner that did not crash and whose compensation, if it needed one, committed leaves its row in
   place exactly when its finalize committed; the row is then linked to an existing connection.  A
   winner that failed at the exchange or at storing the row leaves no row and no connection.
   */
  lemma WinnerOutcome(ws: seq<World>, es: seq<Event>, n: nat, cb: CallbackId)
    requires IsRun(ws, es) && n < |ws| && cb in ws[n].callbacks
    requires ws[n].callbacks[cb].pc.Completed? || ws[n].callbacks[cb].pc.Compensated? ||
             ws[n].callbacks[cb].pc == Failed(true)
    ensures var w := ws[n];
            var pc := w.callbacks[cb].pc;
            && (pc.Completed? || pc.Compensated? ==> (pc.id in w.rows <==> pc.Completed?))
            && (pc.Completed? ==> w.rows[pc.id].ext == Some(pc.ext) && pc.ext in w.conns)
            && (pc.Compensated? ==> forall x, id :: x in w.extOwner && w.extOwner[x] == cb && id in w.rows ==>
                  w.rows[id].ext != Some(x))
            && (pc.Failed? ==> (forall id :: id in w.rows ==> id in w.rowOwner && w.rowOwner[id] != cb)
                               && forall x :: x in w.conns ==> x in w.extOwner && w.extOwner[x] != cb)
  {
    RunCallbacks(ws, es, n);
    if !ws[n].callbacks[cb].pc.Failed? { OutcomeOf(ws[n], cb); }
  }

  lemma OutcomeOf(w: World, cb: CallbackId)
    requires OwnerInv(w) && cb in w.callbacks
    requires w.callbacks[cb].pc.Completed? || w.callbacks[cb].pc.Compensated?
    ensures var pc := w.callbacks[cb].pc;
            && (pc.id in w.rows <==> pc.Completed?)
            && (pc.Completed? ==> w.rows[pc.id].ext == Some(pc.ext) && pc.ext in w.conns)
            && (pc.Compensated? ==> forall x, id :: x in w.extOwner && w.extOwner[x] == cb && id in w.rows ==>
                  w.rows[id].ext != Some(x))
  {
    assert Settled(w, cb, w.callbacks[cb].pc);
    forall id | id in w.rows ensures Settled(w, w.rowOwner[id], w.callbacks[w.rowOwner[id]].pc) { }
  }
}
