/**
 What the records say: a saga's columns against its winner, where rows and callbacks come from, how long
 a registered nonce can be won, and how often one webhook event is acted on.
 */
module VaultRecords {
  import opened Wrappers
  import opened Envelope
  import opened Vault
  import opened VaultFrames
  import opened VaultCallbacks
  import opened VaultSagas

  // ------------------------------------------------------------------
  // The saga row
  // ------------------------------------------------------------------

  predicate Blank(s: Saga) { s.status in {Initiated, SagaFailed} && s.token.None? && s.ext.None? }

  /** The saga's columns at each program counter of its winner; a relabelled one says FAILED. */
  predicate Tracks(s: Saga, pc: CallbackPc) {
    match pc
    case Completed(id, ext) => s.status in {SagaCompleted, SagaFailed} && s.token == Some(id) && s.ext == Some(ext)
    case Compensated(_) => s.status in {SagaCompensated, SagaFailed} && s.token.None? && s.ext.None?
    case _ =>
      match RowOf(pc)
      case None => Blank(s)
      case Some(id) => s.status in {TokenObtained, SagaFailed} && s.token == Some(id) && s.ext.None?
  }

  ghost predicate NoWinner(w: World, n: Nonce) {
    forall c :: c in w.callbacks && w.callbacks[c].nonce == n ==> !HasWon(w.callbacks[c].pc)
  }

  ghost predicate Recorded(w: World, n: Nonce) {
    n in w.sagas ==>
      && (forall c :: c in w.callbacks && w.callbacks[c].nonce == n && HasWon(w.callbacks[c].pc) ==>
            Tracks(w.sagas[n], w.callbacks[c].pc))
      && (NoWinner(w, n) ==> Blank(w.sagas[n]))
  }

  /** A step of one callback on the saga's state token, as far as the saga is concerned. */
  ghost predicate RecordDelta(w: World, w': World, cb: CallbackId) {
    && cb in w.callbacks && cb in w'.callbacks && w'.callbacks == w.callbacks[cb := w'.callbacks[cb]]
    && w'.callbacks[cb].nonce == w.callbacks[cb].nonce
    && var n, pc, pc' := w.callbacks[cb].nonce, w.callbacks[cb].pc, w'.callbacks[cb].pc;
       && w'.sagas.Keys == w.sagas.Keys && (forall m :: m in w.sagas && m != n ==> w'.sagas[m] == w.sagas[m])
       && (n in w.sagas ==>
             var s, s' := w.sagas[n], w'.sagas[n];
             && (HasWon(pc) ==> HasWon(pc') && (Tracks(s, pc) ==> Tracks(s', pc')))
             && (!HasWon(pc) && HasWon(pc') ==> n in w.nonces && s' == s && pc' == Won)
             && (!HasWon(pc) && !HasWon(pc') ==> s' == s || s' == s.(status := SagaFailed)))
  }

  lemma RecordFront(w: World, w': World, cb: CallbackId, op: CallbackOp)
    requires CallbackAt(w, cb) && CallbackNext(w, w', cb, op)
    ensures RecordDelta(w, w', cb)
  {
    FrontFrame(w, w', cb, op);
    if op.Persist? || op.Finalize? || op.Compensate? { RecordWriting(w, w', cb, op); }
    else if op.Consume? || op.Exchange? || op.Link? { RecordEarly(w, w', cb, op); }
    else { RecordLate(w, w', cb, op); }
  }

  lemma RecordWriting(w: World, w': World, cb: CallbackId, op: CallbackOp)
    requires CallbackAt(w, cb) && CallbackNext(w, w', cb, op) && (op.Persist? || op.Finalize? || op.Compensate?)
    ensures RecordDelta(w, w', cb)
  {
  }

  lemma RecordEarly(w: World, w': World, cb: CallbackId, op: CallbackOp)
    requires CallbackAt(w, cb) && CallbackNext(w, w', cb, op) && (op.Consume? || op.Exchange? || op.Link?)
    ensures RecordDelta(w, w', cb)
  {
  }

  lemma RecordLate(w: World, w': World, cb: CallbackId, op: CallbackOp)
    requires CallbackAt(w, cb) && CallbackNext(w, w', cb, op) && (op.Undo? || op.MarkFailed? || op.CallbackCrash?)
    ensures RecordDelta(w, w', cb)
  {
  }

  lemma NoWinnerBefore(w: World, w': World, cb: CallbackId)
    requires NonceInv(w) && RecordDelta(w, w', cb) && w.callbacks[cb].nonce in w.sagas && !HasWon(w.callbacks[cb].pc)
    requires HasWon(w'.callbacks[cb].pc) || NoWinner(w', w.callbacks[cb].nonce)
    ensures NoWinner(w, w.callbacks[cb].nonce)
  {
    var n := w.callbacks[cb].nonce;
    forall c | c in w.callbacks && w.callbacks[c].nonce == n ensures !HasWon(w.callbacks[c].pc) {
      if c != cb { assert w'.callbacks[c] == w.callbacks[c]; }
      assert HasWon(w.callbacks[c].pc) ==> Spent(w, n);
    }
  }

  lemma RecordedOwn(w: World, w': World, cb: CallbackId)
    requires NonceInv(w) && NonceInv(w') && RecordDelta(w, w', cb) && Recorded(w, w.callbacks[cb].nonce)
    ensures Recorded(w', w.callbacks[cb].nonce)
  {
    var n := w.callbacks[cb].nonce;
    if n in w.sagas {
      var pc, pc' := w.callbacks[cb].pc, w'.callbacks[cb].pc;
      if !HasWon(pc) && (HasWon(pc') || NoWinner(w', n)) { NoWinnerBefore(w, w', cb); }
      forall c | c in w'.callbacks && w'.callbacks[c].nonce == n && HasWon(w'.callbacks[c].pc)
        ensures Tracks(w'.sagas[n], w'.callbacks[c].pc)
      {
        if c != cb { assert w'.callbacks[c] == w.callbacks[c] && !HasWon(pc'); }
      }
    }
  }

  lemma RecordedFront(w: World, w': World, cb: CallbackId, n: Nonce)
    requires NonceInv(w) && NonceInv(w') && RecordDelta(w, w', cb) && Recorded(w, n)
    ensures Recorded(w', n)
  {
    if n == w.callbacks[cb].nonce {
      RecordedOwn(w, w', cb);
    } else if n in w'.sagas {
      forall c | c in w'.callbacks && w'.callbacks[c].nonce == n ensures w'.callbacks[c] == w.callbacks[c] { }
      if NoWinner(w', n) {
        forall c | c in w.callbacks && w.callbacks[c].nonce == n ensures !HasWon(w.callbacks[c].pc) {
          assert w'.callbacks[c] == w.callbacks[c];
        }
      }
    }
  }

  lemma RecordedOther(w: World, w': World, e: Event, n: Nonce)
    requires NonceInv(w) && Next(w, w', e) && (e.Initiate? || e.Denied? || e.Arrive? || e.Register?) && Recorded(w, n)
    ensures Recorded(w', n)
  {
    OtherCallbacks(w, w', e);
    if n in w'.sagas {
      OtherSagas(w, w', e, n);
      RecordedKept(w, w', n);
    }
  }

  lemma RecordedKept(w: World, w': World, n: Nonce)
    requires n in w'.sagas && Recorded(w, n)
    requires forall c :: c in w.callbacks ==> c in w'.callbacks && w'.callbacks[c] == w.callbacks[c]
    requires forall c :: c in w'.callbacks && c !in w.callbacks ==> w'.callbacks[c].pc == Checked
    requires n !in w.sagas ==> Blank(w'.sagas[n]) && forall c :: c in w.callbacks ==> w.callbacks[c].nonce != n
    requires n in w.sagas ==> w'.sagas[n] == w.sagas[n].(registered := w'.sagas[n].registered)
                              || w'.sagas[n] == w.sagas[n].(status := SagaFailed)
    ensures Recorded(w', n)
  {
    if n in w.sagas && NoWinner(w', n) {
      forall c | c in w.callbacks && w.callbacks[c].nonce == n ensures !HasWon(w.callbacks[c].pc) {
        assert w'.callbacks[c] == w.callbacks[c];
      }
    }
  }

  lemma OtherCallbacks(w: World, w': World, e: Event)
    requires Next(w, w', e) && (e.Initiate? || e.Denied? || e.Arrive? || e.Register?)
    ensures forall c :: c in w.callbacks ==> c in w'.callbacks && w'.callbacks[c] == w.callbacks[c]
    ensures forall c :: c in w'.callbacks && c !in w.callbacks ==> w'.callbacks[c].pc == Checked
  {
  }

  lemma OtherSagas(w: World, w': World, e: Event, n: Nonce)
    requires NonceInv(w) && Next(w, w', e) && (e.Initiate? || e.Denied? || e.Arrive? || e.Register?) && n in w'.sagas
    ensures n !in w.sagas ==> Blank(w'.sagas[n]) && forall c :: c in w.callbacks ==> w.callbacks[c].nonce != n
    ensures n in w.sagas ==> w'.sagas[n] == w.sagas[n].(registered := w'.sagas[n].registered)
                             || w'.sagas[n] == w.sagas[n].(status := SagaFailed)
  {
  }

  lemma RecordedNext(w: World, w': World, e: Event, n: Nonce)
    requires CallbackInv(w) && CallbackInv(w') && Next(w, w', e) && Recorded(w, n)
    ensures Recorded(w', n)
  {
    if e.Work? {
      WorkFrame(w, w', e.t, e.op);
      RecordedSame(w, w', n);
    } else if e.Front? {
      RecordFront(w, w', e.cb, e.cop);
      RecordedFront(w, w', e.cb, n);
    } else if e.Initiate? || e.Denied? || e.Arrive? || e.Register? {
      RecordedOther(w, w', e, n);
    } else {
      QuietFrame(w, w', e);
      RecordedSame(w, w', n);
    }
  }

  lemma RecordedSame(w: World, w': World, n: Nonce)
    requires w'.sagas == w.sagas && w'.callbacks == w.callbacks && Recorded(w, n)
    ensures Recorded(w', n)
  {
    if NoWinner(w', n) { assert NoWinner(w, n); }
  }

  lemma {:induction false} RunRecorded(ws: seq<World>, es: seq<Event>, k: nat, n: Nonce)
    requires IsRun(ws, es) && k < |ws|
    ensures Recorded(ws[k], n)
  {
    if k > 0 {
      RunRecorded(ws, es, k - 1, n);
      RecordedExtends(ws, es, k, n);
    }
  }

  lemma RecordedExtends(ws: seq<World>, es: seq<Event>, k: nat, n: Nonce)
    requires IsRun(ws, es) && 0 < k < |ws| && Recorded(ws[k - 1], n)
    ensures Recorded(ws[k], n)
  {
    RunCallbacks(ws, es, k - 1);
    RunCallbacks(ws, es, k);
    RecordedNext(ws[k - 1], ws[k], es[k - 1], n);
  }

  /** A saga says FAILED only after one of the two events that say so. */
  ghost predicate FailStep(w: World, w': World, e: Event, n: Nonce) {
    n in w'.sagas && w'.sagas[n].status == SagaFailed ==>
      Relabels(w, e, n) || (n in w.sagas && w.sagas[n].status == SagaFailed)
  }

  lemma FailNext(w: World, w': World, e: Event, n: Nonce)
    requires Next(w, w', e)
    ensures FailStep(w, w', e, n)
  {
    if e.Work? { WorkFrame(w, w', e.t, e.op); }
    else if e.Front? { FailFront(w, w', e.cb, e.cop, n); }
    else if e.Initiate? || e.Denied? || e.Arrive? || e.Register? { }
    else { QuietFrame(w, w', e); }
  }

  lemma FailFront(w: World, w': World, cb: CallbackId, op: CallbackOp, n: Nonce)
    requires CallbackAt(w, cb) && CallbackNext(w, w', cb, op)
    ensures FailStep(w, w', Front(cb, op), n)
  {
  }

  lemma {:induction false} FailedWasRelabelled(ws: seq<World>, es: seq<Event>, k: nat, n: Nonce)
    requires IsRun(ws, es) && k < |ws| && n in ws[k].sagas && ws[k].sagas[n].status == SagaFailed
    ensures RelabelledBetween(ws, es, 0, k, n)
  {
    assert k > 0 by { if k == 0 { assert ws[0].sagas == map[]; } }
    FailExtends(ws, es, k, n);
    if Relabels(ws[k - 1], es[k - 1], n) {
    } else {
      FailedWasRelabelled(ws, es, k - 1, n);
      RelabelledExtends(ws, es, 0, k, n);
    }
  }

  lemma FailExtends(ws: seq<World>, es: seq<Event>, k: nat, n: Nonce)
    requires IsRun(ws, es) && 0 < k < |ws|
    ensures FailStep(ws[k - 1], ws[k], es[k - 1], n)
  {
    FailNext(ws[k - 1], ws[k], es[k - 1], n);
  }

  /** The status that goes with a winner's program counter. */
  function StatusFor(pc: CallbackPc): SagaStatus {
    match pc
    case Checked => Initiated
    case Won => Initiated
    case Exchanged(_) => Initiated
    case Failing(_) => Initiated
    case Failed(_) => Initiated
    case Completed(_, _) => SagaCompleted
    case Compensated(_) => SagaCompensated
    case _ => TokenObtained
  }

  /**
   In every run: token and connection columns of a saga are always its winner's, and so is its status as
   long as nothing has relabelled it FAILED.
   */
  lemma SagaTellsWinner(ws: seq<World>, es: seq<Event>, k: nat, cb: CallbackId)
    requires IsRun(ws, es) && k < |ws| && cb in ws[k].callbacks && HasWon(ws[k].callbacks[cb].pc)
    requires ws[k].callbacks[cb].nonce in ws[k].sagas
    ensures var n, pc := ws[k].callbacks[cb].nonce, ws[k].callbacks[cb].pc;
            var s := ws[k].sagas[n];
            && s.token == (if pc.Compensated? then None else RowOf(pc))
            && s.ext == (if pc.Completed? then Some(pc.ext) else None)
            && (!RelabelledBetween(ws, es, 0, k, n) ==> s.status == StatusFor(pc))
  {
    var n := ws[k].callbacks[cb].nonce;
    RunRecorded(ws, es, k, n);
    if ws[k].sagas[n].status == SagaFailed { FailedWasRelabelled(ws, es, k, n); }
  }

  /** A callback is let in only while no row has been stored on its state token. */
  lemma NoLateArrival(ws: seq<World>, es: seq<Event>, k: nat, cb: CallbackId, n: Nonce, tenant: Bytes, provider: Bytes,
                      c: CallbackId)
    requires IsRun(ws, es) && k < |es| && es[k] == Event.Arrive(cb, n, tenant, provider)
    requires c in ws[k].callbacks && ws[k].callbacks[c].nonce == n
    ensures RowOf(ws[k].callbacks[c].pc).None?
  {
    assert Next(ws[k], ws[k + 1], es[k]);
    RunRecorded(ws, es, k, n);
  }

  // ------------------------------------------------------------------
  // Where callbacks and rows come from
  // ------------------------------------------------------------------

  /** A saga's tenant and provider are its initiation's, a callback's its saga's. */
  ghost predicate SagaNamed(w: World, w': World, e: Event, n: Nonce) {
    n in w'.sagas ==>
      || e == Initiate(n, w'.sagas[n].tenant, w'.sagas[n].provider)
      || (n in w.sagas && w.sagas[n].tenant == w'.sagas[n].tenant && w.sagas[n].provider == w'.sagas[n].provider)
  }

  ghost predicate CallbackStep(w: World, w': World, cb: CallbackId) {
    cb in w'.callbacks ==>
      var c' := w'.callbacks[cb];
      if cb in w.callbacks then
        var c := w.callbacks[cb];
        c'.nonce == c.nonce && c'.tenant == c.tenant && c'.provider == c.provider
      else
        c'.nonce in w.sagas && w.sagas[c'.nonce].tenant == c'.tenant && w.sagas[c'.nonce].provider == c'.provider
  }

  lemma SagaStepNext(w: World, w': World, e: Event, n: Nonce)
    requires Next(w, w', e)
    ensures SagaNamed(w, w', e, n)
  {
    if e.Work? { WorkFrame(w, w', e.t, e.op); }
    else if e.Front? { if n in w'.sagas { SagaStepFront(w, w', e.cb, e.cop, n); } }
    else if e.Initiate? || e.Denied? || e.Arrive? || e.Register? { }
    else { QuietFrame(w, w', e); }
  }

  lemma SagaStepFront(w: World, w': World, cb: CallbackId, op: CallbackOp, n: Nonce)
    requires CallbackAt(w, cb) && CallbackNext(w, w', cb, op) && n in w'.sagas
    ensures n in w.sagas && w.sagas[n].tenant == w'.sagas[n].tenant && w.sagas[n].provider == w'.sagas[n].provider
  {
  }

  lemma CallbackStepNext(w: World, w': World, e: Event, cb: CallbackId)
    requires Next(w, w', e)
    ensures CallbackStep(w, w', cb)
  {
    if e.Work? { WorkFrame(w, w', e.t, e.op); }
    else if e.Front? {
      FrontFrame(w, w', e.cb, e.cop);
      CallbackStepFront(w, w', e.cb, e.cop);
    }
    else if e.Initiate? || e.Denied? || e.Arrive? || e.Register? { }
    else { QuietFrame(w, w', e); }
  }

  lemma CallbackStepFront(w: World, w': World, cb: CallbackId, op: CallbackOp)
    requires CallbackAt(w, cb) && CallbackNext(w, w', cb, op)
    ensures CallbackStep(w, w', cb)
  {
  }

  lemma {:induction false} SagaBySteps(ws: seq<World>, es: seq<Event>, k: nat, n: Nonce) returns (j: nat)
    requires |ws| == |es| + 1 && k < |ws| && n in ws[k].sagas && n !in ws[0].sagas
    requires forall i :: 0 <= i < k ==> SagaNamed(ws[i], ws[i + 1], es[i], n)
    ensures j < k && es[j] == Initiate(n, ws[k].sagas[n].tenant, ws[k].sagas[n].provider)
  {
    assert SagaNamed(ws[k - 1], ws[k - 1 + 1], es[k - 1], n);
    if es[k - 1] == Initiate(n, ws[k].sagas[n].tenant, ws[k].sagas[n].provider) {
      j := k - 1;
    } else {
      j := SagaBySteps(ws, es, k - 1, n);
    }
  }

  lemma SagaBegun(ws: seq<World>, es: seq<Event>, k: nat, n: Nonce) returns (j: nat)
    requires IsRun(ws, es) && k < |ws| && n in ws[k].sagas
    ensures j < k && es[j] == Initiate(n, ws[k].sagas[n].tenant, ws[k].sagas[n].provider)
  {
    assert ws[0].sagas == map[];
    forall i | 0 <= i < k ensures SagaNamed(ws[i], ws[i + 1], es[i], n) { SagaStepAt(ws, es, i, n); }
    j := SagaBySteps(ws, es, k, n);
  }

  lemma SagaStepAt(ws: seq<World>, es: seq<Event>, k: nat, n: Nonce)
    requires IsRun(ws, es) && k < |es|
    ensures SagaNamed(ws[k], ws[k + 1], es[k], n)
  {
    SagaStepNext(ws[k], ws[k + 1], es[k], n);
  }

  lemma CallbackStepAt(ws: seq<World>, es: seq<Event>, k: nat, cb: CallbackId)
    requires IsRun(ws, es) && k < |es|
    ensures CallbackStep(ws[k], ws[k + 1], cb)
  {
    CallbackStepNext(ws[k], ws[k + 1], es[k], cb);
  }

  lemma {:induction false} CallbackBegun(ws: seq<World>, es: seq<Event>, k: nat, cb: CallbackId) returns (j: nat)
    requires IsRun(ws, es) && k < |ws| && cb in ws[k].callbacks
    ensures var c := ws[k].callbacks[cb]; j < k && es[j] == Initiate(c.nonce, c.tenant, c.provider)
  {
    assert k > 0 by { if k == 0 { assert ws[0].callbacks == map[]; } }
    CallbackStepAt(ws, es, k - 1, cb);
    if cb in ws[k - 1].callbacks {
      j := CallbackBegun(ws, es, k - 1, cb);
    } else {
      j := SagaBegun(ws, es, k - 1, ws[k].callbacks[cb].nonce);
    }
  }

  /** A row carries the tenant and the provider of the callback that stored it. */
  predicate RowMatches(w: World, id: RowId) {
    id in w.rows ==>
      && id in w.rowOwner && w.rowOwner[id] in w.callbacks
      && w.rows[id].tenant == w.callbacks[w.rowOwner[id]].tenant
      && w.rows[id].provider == w.callbacks[w.rowOwner[id]].provider
  }

  lemma RowMatchesNext(w: World, w': World, e: Event, id: RowId)
    requires Next(w, w', e) && w.rows.Keys <= w.rowOwner.Keys && RowMatches(w, id)
    ensures RowMatches(w', id)
  {
    if e.Work? {
      WorkFrame(w, w', e.t, e.op);
      if id in w.rows {
        if id == w.tasks[e.t].id { WorkOwnRow(w, w', e.t, e.op); } else { WorkOtherRow(w, w', e.t, e.op, id); }
      }
    } else if e.Front? {
      if id in w'.rows { RowMatchesFront(w, w', e.cb, e.cop, id); }
    } else {
      OtherFrame(w, w', e);
      if id in w.rows {
        OtherRow(w, w', e, id);
        CallbacksKept(w, w', e, w.rowOwner[id]);
      }
    }
  }

  lemma RowMatchesFront(w: World, w': World, cb: CallbackId, op: CallbackOp, id: RowId)
    requires CallbackAt(w, cb) && CallbackNext(w, w', cb, op) && w.rows.Keys <= w.rowOwner.Keys
    requires RowMatches(w, id) && id in w'.rows
    ensures RowMatches(w', id)
  {
    FrontFrame(w, w', cb, op);
    FrontRow(w, w', cb, op, id);
    CallbackStepFront(w, w', cb, op);
    OwnerOf(w, w', cb, op, id);
  }

  lemma OwnerOf(w: World, w': World, cb: CallbackId, op: CallbackOp, id: RowId)
    requires CallbackAt(w, cb) && CallbackNext(w, w', cb, op)
    ensures id in w.rowOwner ==> id in w'.rowOwner && w'.rowOwner[id] == w.rowOwner[id]
    ensures id !in w.rowOwner && id in w'.rowOwner ==> w'.rowOwner[id] == cb
    ensures id in w'.rows && id !in w.rows ==> id in w'.rowOwner
  {
  }

  lemma {:induction false} RunRowMatches(ws: seq<World>, es: seq<Event>, k: nat, id: RowId)
    requires IsRun(ws, es) && k < |ws|
    ensures RowMatches(ws[k], id)
  {
    if k > 0 {
      RunRowMatches(ws, es, k - 1, id);
      RowMatchesExtends(ws, es, k, id);
    }
  }

  lemma RowMatchesExtends(ws: seq<World>, es: seq<Event>, k: nat, id: RowId)
    requires IsRun(ws, es) && 0 < k < |ws| && RowMatches(ws[k - 1], id)
    ensures RowMatches(ws[k], id)
  {
    RunCallbacks(ws, es, k - 1);
    RowMatchesNext(ws[k - 1], ws[k], es[k - 1], id);
  }

  /**
   In every run: every stored row belongs to the tenant and the provider of an earlier initiation, the one
   that drew the nonce its callback came with.
   */
  lemma RowsStemFromInitiation(ws: seq<World>, es: seq<Event>, k: nat, id: RowId) returns (j: nat)
    requires IsRun(ws, es) && k < |ws| && id in ws[k].rows
    ensures id in ws[k].rowOwner && ws[k].rowOwner[id] in ws[k].callbacks
    ensures j < k && es[j] == Initiate(ws[k].callbacks[ws[k].rowOwner[id]].nonce, ws[k].rows[id].tenant,
                                       ws[k].rows[id].provider)
  {
    RunRowMatches(ws, es, k, id);
    j := CallbackBegun(ws, es, k, ws[k].rowOwner[id]);
  }

  // ------------------------------------------------------------------
  // How long a nonce can be won
  // ------------------------------------------------------------------

  /** The nonce's registration is over: nobody can register it again. */
  predicate Over(w: World, n: Nonce) { n in w.usedNonces && (n in w.sagas ==> w.sagas[n].registered) }

  /** Somebody asks for the nonce. */
  predicate Asks(w: World, e: Event, n: Nonce) {
    e.Front? && e.cop == Consume && e.cb in w.callbacks && w.callbacks[e.cb].nonce == n
  }

  /** Once registered, a nonce's key stays as it is until somebody asks for it, and is gone from then on. */
  ghost predicate KeyKept(w: World, w': World, e: Event, n: Nonce) {
    Over(w, n) ==>
      && Over(w', n)
      && (if Asks(w, e, n) then n !in w'.nonces
          else (n in w'.nonces <==> n in w.nonces) && (n in w.nonces ==> w'.nonces[n] == w.nonces[n]))
  }

  lemma KeyKeptNext(w: World, w': World, e: Event, n: Nonce)
    requires Next(w, w', e)
    ensures KeyKept(w, w', e, n)
  {
    if e.Work? { WorkFrame(w, w', e.t, e.op); }
    else if e.Front? { KeyKeptFront(w, w', e.cb, e.cop, n); }
    else if e.Initiate? || e.Denied? || e.Arrive? || e.Register? { KeyKeptOther(w, w', e, n); }
    else { QuietFrame(w, w', e); }
  }

  lemma KeyKeptFront(w: World, w': World, cb: CallbackId, op: CallbackOp, n: Nonce)
    requires CallbackAt(w, cb) && CallbackNext(w, w', cb, op)
    ensures KeyKept(w, w', Front(cb, op), n)
  {
    FrontNonce(w, w', cb, op);
  }

  lemma KeyKeptOther(w: World, w': World, e: Event, n: Nonce)
    requires Next(w, w', e) && (e.Initiate? || e.Denied? || e.Arrive? || e.Register?)
    ensures KeyKept(w, w', e, n)
  {
  }

  ghost predicate Unasked(ws: seq<World>, es: seq<Event>, m: nat, k: nat, n: Nonce)
    requires |ws| == |es| + 1 && k < |ws|
  {
    forall j {:trigger es[j]} :: m <= j < k ==> !Asks(ws[j], es[j], n)
  }

  lemma {:induction false} KeyBySteps(ws: seq<World>, es: seq<Event>, m: nat, k: nat, n: Nonce)
    requires |ws| == |es| + 1 && m <= k < |ws| && Over(ws[m], n) && n in ws[m].nonces
    requires forall j :: m <= j < k ==> KeyKept(ws[j], ws[j + 1], es[j], n)
    ensures Over(ws[k], n)
    ensures if Unasked(ws, es, m, k, n) then n in ws[k].nonces && ws[k].nonces[n] == ws[m].nonces[n]
            else n !in ws[k].nonces
    decreases k
  {
    if m < k {
      KeyBySteps(ws, es, m, k - 1, n);
      assert KeyKept(ws[k - 1], ws[k - 1 + 1], es[k - 1], n);
      assert Unasked(ws, es, m, k, n) <==> Unasked(ws, es, m, k - 1, n) && !Asks(ws[k - 1], es[k - 1], n);
    }
  }

  lemma ConsumeWins(w: World, w': World, cb: CallbackId)
    requires ConsumeStep(w, w', cb)
    ensures var c := w.callbacks[cb];
            cb in w'.callbacks &&
            (w'.callbacks[cb].pc == Won <==>
             c.nonce in w.nonces && w.now < w.nonces[c.nonce].expiresAt && w.nonces[c.nonce].tenant == c.tenant)
  {
  }

  lemma RegisterKeys(w: World, w': World, n: Nonce, reg: RegOutcome)
    requires RegisterStep(w, w', n, reg) && reg != RegFailed && n in w.usedNonces
    ensures n in w.sagas && Over(w', n) && n in w'.nonces && w'.nonces[n] == NonceEntry(w.sagas[n].tenant, w.now + 300)
  {
  }

  /**
   In every run: a callback wins its nonce if and only if it asks within 300 seconds of the registration,
   nobody has asked before, and its tenant is the one that registered.
   */
  lemma WinsIff(ws: seq<World>, es: seq<Event>, m: nat, k: nat, cb: CallbackId, n: Nonce, reg: RegOutcome)
    requires IsRun(ws, es) && m < k < |es| && es[m] == Event.Register(n, reg) && reg != RegFailed
    requires es[k] == Front(cb, Consume) && cb in ws[k].callbacks && ws[k].callbacks[cb].nonce == n
    ensures n in ws[m].sagas && cb in ws[k + 1].callbacks
    ensures ws[k + 1].callbacks[cb].pc == Won <==>
            && Unasked(ws, es, m + 1, k, n) && ws[k].now < ws[m].now + 300
            && ws[k].callbacks[cb].tenant == ws[m].sagas[n].tenant
  {
    RegisteredAt(ws, es, m, n, reg);
    forall j | m + 1 <= j < k ensures KeyKept(ws[j], ws[j + 1], es[j], n) { KeyKeptNext(ws[j], ws[j + 1], es[j], n); }
    KeyBySteps(ws, es, m + 1, k, n);
    AskedAt(ws, es, k, cb);
  }

  lemma RegisteredAt(ws: seq<World>, es: seq<Event>, m: nat, n: Nonce, reg: RegOutcome)
    requires IsRun(ws, es) && m < |es| && es[m] == Event.Register(n, reg) && reg != RegFailed
    ensures n in ws[m].sagas && Over(ws[m + 1], n) && n in ws[m + 1].nonces
    ensures ws[m + 1].nonces[n] == NonceEntry(ws[m].sagas[n].tenant, ws[m].now + 300)
  {
    RunCallbacks(ws, es, m);
    RegisterKeys(ws[m], ws[m + 1], n, reg);
  }

  lemma AskedAt(ws: seq<World>, es: seq<Event>, k: nat, cb: CallbackId)
    requires IsRun(ws, es) && k < |es| && es[k] == Front(cb, Consume)
    ensures cb in ws[k].callbacks && cb in ws[k + 1].callbacks
    ensures var w, c := ws[k], ws[k].callbacks[cb];
            ws[k + 1].callbacks[cb].pc == Won <==>
            c.nonce in w.nonces && w.now < w.nonces[c.nonce].expiresAt && w.nonces[c.nonce].tenant == c.tenant
  {
    ConsumeWins(ws[k], ws[k + 1], cb);
  }

  // ------------------------------------------------------------------
  // Webhook events
  // ------------------------------------------------------------------

  /** The delivery is acted on: a revocation of its account is under way. */
  predicate ActedOn(w: World, w': World, e: Event) { e.Deliver? && e.hook in w'.hooks && e.hook !in w.hooks }

  /** An event without an id is always acted on, one with an id unless it was seen within a day. */
  lemma DeliveryIff(w: World, w': World, hook: HookId, eid: Option<EventId>, provider: Bytes, account: Bytes)
    requires DeliverStep(w, w', hook, eid, provider, account)
    ensures ActedOn(w, w', Deliver(hook, eid, provider, account)) <==>
            account != [] && !(eid.Some? && eid.value in w.seen && w.now < w.seen[eid.value])
    ensures ActedOn(w, w', Deliver(hook, eid, provider, account)) ==> w'.hooks[hook] == Hook(provider, account)
    ensures eid.Some? && !(eid.value in w.seen && w.now < w.seen[eid.value]) ==>
              eid.value in w'.seen && w'.seen[eid.value] == w.now + 86400
  {
  }

  ghost predicate SeenStep(w: World, w': World, e: Event, eid: EventId) {
    eid in w.seen ==> eid in w'.seen && w'.seen[eid] >= w.seen[eid]
                      && (ActedOn(w, w', e) && e.eid == Some(eid) ==> w.now >= w.seen[eid])
  }

  lemma SeenNext(w: World, w': World, e: Event, eid: EventId)
    requires Next(w, w', e)
    ensures SeenStep(w, w', e, eid)
  {
    if e.Work? { WorkFrame(w, w', e.t, e.op); }
    else if e.Front? { FrontFrame(w, w', e.cb, e.cop); }
    else { SeenOther(w, w', e, eid); }
  }

  lemma SeenOther(w: World, w': World, e: Event, eid: EventId)
    requires Next(w, w', e) && !e.Work? && !e.Front?
    ensures SeenStep(w, w', e, eid)
  {
  }

  lemma {:induction false} SeenBySteps(ws: seq<World>, es: seq<Event>, m: nat, k: nat, eid: EventId)
    requires |ws| == |es| + 1 && m <= k < |ws| && eid in ws[m].seen
    requires forall j :: m <= j < k ==> SeenStep(ws[j], ws[j + 1], es[j], eid)
    ensures eid in ws[k].seen && ws[k].seen[eid] >= ws[m].seen[eid]
    decreases k
  {
    if m < k {
      SeenBySteps(ws, es, m, k - 1, eid);
      assert SeenStep(ws[k - 1], ws[k - 1 + 1], es[k - 1], eid);
    }
  }

  /** In every run: of the deliveries of one event id, two that are acted on lie a day apart. */
  lemma EventActedOnOnce(ws: seq<World>, es: seq<Event>, m: nat, k: nat, eid: EventId)
    requires IsRun(ws, es) && m < k < |es|
    requires ActedOn(ws[m], ws[m + 1], es[m]) && es[m].eid == Some(eid)
    requires ActedOn(ws[k], ws[k + 1], es[k]) && es[k].eid == Some(eid)
    ensures ws[k].now >= ws[m].now + 86400
  {
    FirstSeen(ws, es, m, eid);
    forall j | 0 <= j < |es| ensures SeenStep(ws[j], ws[j + 1], es[j], eid) { SeenNext(ws[j], ws[j + 1], es[j], eid); }
    SeenBySteps(ws, es, m + 1, k, eid);
    assert SeenStep(ws[k], ws[k + 1], es[k], eid);
  }

  lemma FirstSeen(ws: seq<World>, es: seq<Event>, m: nat, eid: EventId)
    requires IsRun(ws, es) && m < |es| && ActedOn(ws[m], ws[m + 1], es[m]) && es[m].eid == Some(eid)
    ensures eid in ws[m + 1].seen && ws[m + 1].seen[eid] == ws[m].now + 86400
  {
    assert Next(ws[m], ws[m + 1], es[m]);
    DeliveryIff(ws[m], ws[m + 1], es[m].hook, es[m].eid, es[m].provider, es[m].account);
  }
}
