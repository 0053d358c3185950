/** When a completed saga stops being COMPLETED. */
module VaultSagas {
  import opened Wrappers
  import opened Vault
  import opened VaultFrames
  import opened VaultCallbacks

  predicate Complete(w: World, n: Nonce) { n in w.sagas && w.sagas[n].status == SagaCompleted }

  /** A callback on this state token has finished. */
  ghost predicate Finished(w: World, n: Nonce) {
    exists c :: c in w.callbacks && w.callbacks[c].nonce == n && w.callbacks[c].pc.Completed?
  }

  ghost predicate SagaInv(w: World) {
    CallbackInv(w) && forall n :: Complete(w, n) ==> Finished(w, n)
  }

  /** The two events that relabel a saga FAILED: a denial naming it, and a callback on it giving up. */
  predicate Relabels(w: World, e: Event, n: Nonce) {
    || e == Denied(n)
    || (e.Front? && e.cop == MarkFailed(true) && e.cb in w.callbacks && w.callbacks[e.cb].nonce == n)
  }

  // ------------------------------------------------------------------
  // One step
  // ------------------------------------------------------------------

  /** What a callback step does to the sagas: its own only, and only a finalize completes it. */
  ghost predicate SagaDelta(w: World, w': World, cb: CallbackId, op: CallbackOp) {
    && cb in w.callbacks && cb in w'.callbacks && w'.callbacks == w.callbacks[cb := w'.callbacks[cb]]
    && var n := w.callbacks[cb].nonce;
       && w'.callbacks[cb].nonce == n
       && (forall m :: m != n ==> (Complete(w', m) <==> Complete(w, m)))
       && (w.callbacks[cb].pc.Completed? ==> w'.callbacks[cb].pc.Completed?)
       && (Complete(w', n) && !Complete(w, n) ==> w.callbacks[cb].pc.Linked? && w'.callbacks[cb].pc.Completed?)
       && (Complete(w, n) && !Complete(w', n) ==>
             op == MarkFailed(true) || w.callbacks[cb].pc.Exchanged? || w.callbacks[cb].pc.Compensating?)
       && (op == MarkFailed(true) ==> !Complete(w', n))
  }

  lemma FrontSaga(w: World, w': World, cb: CallbackId, op: CallbackOp)
    requires CallbackAt(w, cb) && CallbackNext(w, w', cb, op)
    ensures SagaDelta(w, w', cb, op)
  {
    FrontFrame(w, w', cb, op);
    if op.Persist? || op.Finalize? || op.Compensate? { FrontSagaWriting(w, w', cb, op); }
    else { FrontSagaOther(w, w', cb, op); }
  }

  lemma FrontSagaWriting(w: World, w': World, cb: CallbackId, op: CallbackOp)
    requires CallbackAt(w, cb) && CallbackNext(w, w', cb, op) && (op.Persist? || op.Finalize? || op.Compensate?)
    ensures SagaDelta(w, w', cb, op)
  {
  }

  lemma FrontSagaOther(w: World, w': World, cb: CallbackId, op: CallbackOp)
    requires CallbackAt(w, cb) && CallbackNext(w, w', cb, op) && !op.Persist? && !op.Finalize? && !op.Compensate?
    ensures SagaDelta(w, w', cb, op)
  {
  }

  /** The other actors: a denial fails its saga, a failed registration removes an unregistered one. */
  lemma OtherSaga(w: World, w': World, e: Event, n: Nonce)
    requires Next(w, w', e) && !e.Work? && !e.Front?
    requires n in w.sagas ==> n in w.usedNonces
    ensures Complete(w', n) ==> Complete(w, n)
    ensures Complete(w, n) && w.sagas[n].registered ==> (Complete(w', n) <==> e != Denied(n))
    ensures w.callbacks.Keys <= w'.callbacks.Keys
  {
  }

  lemma FinishedKept(w: World, w': World, e: Event, n: Nonce)
    requires Next(w, w', e) && Finished(w, n)
    ensures Finished(w', n)
  {
    var c :| c in w.callbacks && w.callbacks[c].nonce == n && w.callbacks[c].pc.Completed?;
    assert c in w'.callbacks && w'.callbacks[c].nonce == n && w'.callbacks[c].pc.Completed? by {
      if e.Work? { WorkFrame(w, w', e.t, e.op); }
      else if e.Front? { FrontSaga(w, w', e.cb, e.cop); }
      else { CallbacksKept(w, w', e, c); }
    }
  }

  lemma CallbacksKept(w: World, w': World, e: Event, c: CallbackId)
    requires Next(w, w', e) && !e.Work? && !e.Front? && c in w.callbacks
    ensures c in w'.callbacks && w'.callbacks[c] == w.callbacks[c]
  {
  }

  /** A finished token is registered, and its winner is the one that finished. */
  lemma FinishedIsWinner(w: World, n: Nonce, cb: CallbackId)
    requires CallbackInv(w) && Finished(w, n)
    ensures n in w.sagas ==> w.sagas[n].registered
    ensures cb in w.callbacks && w.callbacks[cb].nonce == n && HasWon(w.callbacks[cb].pc) ==>
              w.callbacks[cb].pc.Completed?
  {
    var c :| c in w.callbacks && w.callbacks[c].nonce == n && w.callbacks[c].pc.Completed?;
    assert HasWon(w.callbacks[c].pc) && Spent(w, w.callbacks[c].nonce);
  }

  /**
   A finished saga that is COMPLETED stops being so at a step exactly when that step is a denial
   naming it or the commit of a failure mark by a callback on the same state token.
   */
  lemma CompletedLeavesIff(w: World, w': World, e: Event, n: Nonce)
    requires SagaInv(w) && Next(w, w', e) && Complete(w, n)
    ensures !Complete(w', n) <==> Relabels(w, e, n)
  {
    assert Finished(w, n);
    if e.Work? {
      WorkFrame(w, w', e.t, e.op);
    } else if e.Front? {
      FrontSaga(w, w', e.cb, e.cop);
      FinishedIsWinner(w, n, e.cb);
    } else {
      FinishedIsWinner(w, n, 0);
      OtherSaga(w, w', e, n);
    }
  }

  /** And once it has stopped it never is COMPLETED again. */
  lemma NeverCompletedAgain(w: World, w': World, e: Event, n: Nonce)
    requires CallbackInv(w) && Next(w, w', e) && Finished(w, n) && !Complete(w, n)
    ensures !Complete(w', n) && Finished(w', n)
  {
    FinishedKept(w, w', e, n);
    if e.Work? {
      WorkFrame(w, w', e.t, e.op);
    } else if e.Front? {
      FrontSaga(w, w', e.cb, e.cop);
      FinishedIsWinner(w, n, e.cb);
    } else {
      OtherSaga(w, w', e, n);
    }
  }

  lemma SagaNext(w: World, w': World, e: Event)
    requires SagaInv(w) && Next(w, w', e)
    ensures SagaInv(w')
  {
    CallbackInvNext(w, w', e);
    forall n | Complete(w', n) ensures Finished(w', n) {
      if Complete(w, n) {
        FinishedKept(w, w', e, n);
      } else if e.Work? {
        WorkFrame(w, w', e.t, e.op);
      } else if e.Front? {
        FrontSaga(w, w', e.cb, e.cop);
      } else {
        OtherSaga(w, w', e, n);
      }
    }
  }

  // ------------------------------------------------------------------
  // Runs
  // ------------------------------------------------------------------

  lemma {:induction false} RunSagas(ws: seq<World>, es: seq<Event>, n: nat)
    requires IsRun(ws, es) && n < |ws|
    ensures SagaInv(ws[n])
  {
    if n > 0 {
      RunSagas(ws, es, n - 1);
      SagaNext(ws[n - 1], ws[n], es[n - 1]);
    }
  }

  /** Some event between worlds m and n relabels the saga. */
  ghost predicate RelabelledBetween(ws: seq<World>, es: seq<Event>, m: nat, n: nat, nonce: Nonce)
    requires |ws| == |es| + 1 && n < |ws|
  {
    exists k :: m <= k < n && Relabels(ws[k], es[k], nonce)
  }

  /**
   In every run: a saga that is COMPLETED at one point is COMPLETED at a later one if and only if no
   denial named it and no callback on its state token committed a failure mark in between.
   */
  lemma StaysCompletedIff(ws: seq<World>, es: seq<Event>, m: nat, n: nat, nonce: Nonce)
    requires IsRun(ws, es) && m <= n < |ws| && Complete(ws[m], nonce)
    ensures Complete(ws[n], nonce) <==> !RelabelledBetween(ws, es, m, n, nonce)
  {
    RunSagas(ws, es, m);
    forall k | 0 <= k < |es| ensures StepKeeps(ws[k], ws[k + 1], es[k], nonce) { RunKeeps(ws, es, k, nonce); }
    StaysByStep(ws, es, m, n, nonce);
  }

  /** What one step does to a finished saga. */
  ghost predicate StepKeeps(w: World, w': World, e: Event, n: Nonce) {
    Finished(w, n) ==> Finished(w', n) && (Complete(w', n) <==> Complete(w, n) && !Relabels(w, e, n))
  }

  lemma RunKeeps(ws: seq<World>, es: seq<Event>, k: nat, nonce: Nonce)
    requires IsRun(ws, es) && k < |es|
    ensures StepKeeps(ws[k], ws[k + 1], es[k], nonce)
  {
    RunSagas(ws, es, k);
    if Finished(ws[k], nonce) { SagaStep(ws[k], ws[k + 1], es[k], nonce); }
  }

  lemma SagaStep(w: World, w': World, e: Event, n: Nonce)
    requires SagaInv(w) && Next(w, w', e) && Finished(w, n)
    ensures StepKeeps(w, w', e, n)
  {
    if Complete(w, n) {
      FinishedKept(w, w', e, n);
      CompletedLeavesIff(w, w', e, n);
    } else {
      NeverCompletedAgain(w, w', e, n);
    }
  }

  lemma {:induction false} StaysByStep(ws: seq<World>, es: seq<Event>, m: nat, n: nat, nonce: Nonce)
    requires |ws| == |es| + 1 && m <= n < |ws| && Complete(ws[m], nonce) && Finished(ws[m], nonce)
    requires forall k :: 0 <= k < |es| ==> StepKeeps(ws[k], ws[k + 1], es[k], nonce)
    ensures Finished(ws[n], nonce) && (Complete(ws[n], nonce) <==> !RelabelledBetween(ws, es, m, n, nonce))
    decreases n
  {
    if m < n {
      StaysByStep(ws, es, m, n - 1, nonce);
      assert StepKeeps(ws[n - 1], ws[n - 1 + 1], es[n - 1], nonce);
      RelabelledExtends(ws, es, m, n, nonce);
    }
  }

  lemma RelabelledExtends(ws: seq<World>, es: seq<Event>, m: nat, n: nat, nonce: Nonce)
    requires |ws| == |es| + 1 && m < n < |ws|
    ensures RelabelledBetween(ws, es, m, n, nonce) <==>
            RelabelledBetween(ws, es, m, n - 1, nonce) || Relabels(ws[n - 1], es[n - 1], nonce)
  {
  }

  /**
   Losing the race is enough: a duplicate callback that checked the saga before it completed fails
   the nonce consume and then relabels it, while the winner's row stays in place and linked.
   */
  lemma LoserRelabelsCompletedSaga(w0: World, w1: World, w2: World, winner: CallbackId, loser: CallbackId)
    requires SagaInv(w0) && winner in w0.callbacks && w0.callbacks[winner].pc.Completed?
    requires CallbackAt(w0, loser) && w0.callbacks[loser].pc.Checked?
    requires w0.callbacks[loser].nonce == w0.callbacks[winner].nonce && Complete(w0, w0.callbacks[winner].nonce)
    requires ConsumeStep(w0, w1, loser) && MarkFailedStep(w1, w2, loser, true)
    ensures var n := w0.callbacks[loser].nonce;
            var id := w0.callbacks[winner].pc.id;
            && n in w2.sagas && w2.sagas[n].status == SagaFailed
            && id in w2.rows && w2.rows[id].ext == Some(w0.callbacks[winner].pc.ext)
  {
    assert Spent(w0, w0.callbacks[winner].nonce);
    assert Settled(w0, winner, w0.callbacks[winner].pc);
  }
}
