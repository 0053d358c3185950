/**
 When a row falls due again: what the writes of its refresh time mean for the next full refresh, and
 how long a rotated row rests before the provider is asked again.
 */
module VaultDue {
  import opened Wrappers
  import opened Envelope
  import opened Vault
  import opened VaultFrames
  import opened VaultSecrets
  import opened VaultLease

  /** A row whose token lives for that long is due five minutes before its end; without an end, never. */
  predicate DueFor(r: Row, now: int, lifetime: Option<int>, at: int) {
    NeedsFull(r, at) <==> lifetime.Some? && lifetime.value != 0 && at >= now + lifetime.value - 300
  }

  lemma RotatedDue(w: World, w': World, t: TaskId, f: Fresh, at: int)
    requires RotateStep(w, w', t, f, true) && w.tasks[t].id in w.rows
    ensures w.tasks[t].id in w'.rows && DueFor(w'.rows[w.tasks[t].id], w.now, w.tasks[t].pc.parsed.expiresIn, at)
  {
  }

  lemma InsertedDue(w: World, w': World, cb: CallbackId, id: RowId, f: Fresh, commit: bool, at: int)
    requires PersistStep(w, w', cb, id, f, commit) && w'.callbacks[cb].pc.Persisted?
    ensures id in w'.rows && DueFor(w'.rows[id], w.now, w.callbacks[cb].pc.parsed.expiresIn, at)
  {
  }

  /** A row without a refresh token is put off by a year. */
  lemma PostponedDue(w: World, w': World, t: TaskId, at: int)
    requires PostponeStep(w, w', t, true) && w.tasks[t].id in w.rows
    ensures w.tasks[t].id in w'.rows && (NeedsFull(w'.rows[w.tasks[t].id], at) <==> at >= w.now + 31536000)
  {
  }

  // ------------------------------------------------------------------
  // Only these steps move the refresh time
  // ------------------------------------------------------------------

  /** A rotation or a postponement of the row commits. */
  predicate SetsTime(w: World, e: Event, id: RowId) {
    && e.Work? && e.t in w.tasks && w.tasks[e.t].id == id
    && ((e.op.Rotate? && e.op.commit) || (e.op.Postpone? && e.op.commit))
  }

  ghost predicate TimeKept(w: World, w': World, e: Event, id: RowId) {
    id in w.rows && id in w'.rows && !SetsTime(w, e, id) ==> w'.rows[id].refreshAt == w.rows[id].refreshAt
  }

  lemma TimeKeptNext(w: World, w': World, e: Event, id: RowId)
    requires Next(w, w', e) && w.rows.Keys <= w.rowOwner.Keys
    ensures TimeKept(w, w', e, id)
  {
    if id in w.rows && id in w'.rows && !SetsTime(w, e, id) {
      if e.Work? { TimeKeptWork(w, w', e.t, e.op, id); }
      else if e.Front? { TimeKeptFront(w, w', e.cb, e.cop, id); }
      else { TimeKeptElse(w, w', e, id); }
    }
  }

  lemma TimeKeptWork(w: World, w': World, t: TaskId, op: TaskOp, id: RowId)
    requires TaskAt(w, t) && TaskNext(w, w', t, op) && id in w.rows && id in w'.rows
    requires !SetsTime(w, Work(t, op), id)
    ensures w'.rows[id].refreshAt == w.rows[id].refreshAt
  {
  }

  lemma TimeKeptFront(w: World, w': World, cb: CallbackId, op: CallbackOp, id: RowId)
    requires CallbackAt(w, cb) && CallbackNext(w, w', cb, op) && id in w.rows && id in w'.rows
    requires w.rows.Keys <= w.rowOwner.Keys
    ensures w'.rows[id].refreshAt == w.rows[id].refreshAt
  {
  }

  lemma TimeKeptElse(w: World, w': World, e: Event, id: RowId)
    requires Next(w, w', e) && !e.Work? && !e.Front? && id in w.rows && id in w'.rows
    ensures w'.rows[id].refreshAt == w.rows[id].refreshAt
  {
  }

  // ------------------------------------------------------------------
  // Over runs
  // ------------------------------------------------------------------

  ghost predicate Undisturbed(ws: seq<World>, es: seq<Event>, k: nat, n: nat, id: RowId)
    requires |ws| == |es| + 1 && n < |ws|
  {
    forall j {:trigger es[j]} :: k <= j < n ==> !SetsTime(ws[j], es[j], id)
  }

  /** A row that is there after the step was there before, with the same refresh time unless it was set. */
  ghost predicate TimeStep(w: World, w': World, e: Event, id: RowId) {
    id in w.rowOwner && id in w'.rows && !SetsTime(w, e, id) ==>
      id in w.rows && w'.rows[id].refreshAt == w.rows[id].refreshAt
  }

  lemma {:induction false} TimeBySteps(ws: seq<World>, es: seq<Event>, k: nat, n: nat, id: RowId)
    requires |ws| == |es| + 1 && k <= n < |ws| && id in ws[n].rows && Undisturbed(ws, es, k, n, id)
    requires forall j :: k <= j < n ==> TimeStep(ws[j], ws[j + 1], es[j], id) && id in ws[j].rowOwner
    ensures id in ws[k].rows && ws[n].rows[id].refreshAt == ws[k].rows[id].refreshAt
    decreases n
  {
    if k < n {
      assert TimeStep(ws[n - 1], ws[n - 1 + 1], es[n - 1], id);
      assert Undisturbed(ws, es, k, n - 1, id);
      TimeBySteps(ws, es, k, n - 1, id);
    }
  }

  /** In every run, the refresh time of a row stays until the next such step, however the rest interleaves. */
  lemma RefreshTimeStays(ws: seq<World>, es: seq<Event>, k: nat, n: nat, id: RowId)
    requires IsRun(ws, es) && k <= n < |ws| && id in ws[k].rowOwner && id in ws[n].rows
    requires Undisturbed(ws, es, k, n, id)
    ensures id in ws[k].rows && ws[n].rows[id].refreshAt == ws[k].rows[id].refreshAt
  {
    forall j | k <= j < n ensures TimeStep(ws[j], ws[j + 1], es[j], id) && id in ws[j].rowOwner {
      StepKeepsTime(ws, es, j, id);
      StillOwned(ws, es, k, j, id);
    }
    TimeBySteps(ws, es, k, n, id);
  }

  lemma StepKeepsTime(ws: seq<World>, es: seq<Event>, n: nat, id: RowId)
    requires IsRun(ws, es) && n < |es|
    ensures TimeStep(ws[n], ws[n + 1], es[n], id)
  {
    EveryRowOpens(ws, es, n);
    TimeStepNext(ws[n], ws[n + 1], es[n], id);
  }

  lemma TimeStepNext(w: World, w': World, e: Event, id: RowId)
    requires Next(w, w', e) && w.rows.Keys <= w.rowOwner.Keys
    ensures TimeStep(w, w', e, id)
  {
    if id in w.rowOwner && id in w'.rows {
      NoReturn(w, w', e, id);
      TimeKeptNext(w, w', e, id);
    }
  }

  /** Row ids are drawn once. */
  lemma NoReturn(w: World, w': World, e: Event, id: RowId)
    requires Next(w, w', e) && w.rows.Keys <= w.rowOwner.Keys && id in w.rowOwner && id in w'.rows
    ensures id in w.rows
  {
    if e.Work? { WorkFrame(w, w', e.t, e.op); }
    else if e.Front? { FrontRow(w, w', e.cb, e.cop, id); }
    else { OtherFrame(w, w', e); }
  }

  lemma OwnerStays(w: World, w': World, e: Event)
    requires Next(w, w', e) && w.rows.Keys <= w.rowOwner.Keys
    ensures w.rowOwner.Keys <= w'.rowOwner.Keys
  {
    if e.Work? { WorkFrame(w, w', e.t, e.op); }
    else if e.Front? { FrontOwners(w, w', e.cb, e.cop); }
    else { OtherFrame(w, w', e); }
  }

  lemma {:induction false} StillOwned(ws: seq<World>, es: seq<Event>, k: nat, n: nat, id: RowId)
    requires IsRun(ws, es) && k <= n < |ws| && id in ws[k].rowOwner
    ensures id in ws[n].rowOwner
    decreases n
  {
    if k < n {
      StillOwned(ws, es, k, n - 1, id);
      EveryRowOpens(ws, es, n - 1);
      OwnerStays(ws[n - 1], ws[n], es[n - 1]);
    }
  }

  // ------------------------------------------------------------------
  // Timely runs: a rotated row rests
  // ------------------------------------------------------------------

  /** The row is put on the full path by this claim. */
  predicate FullClaim(w: World, e: Event, id: RowId) {
    e.Claim? && id in e.ids.Values && id in w.rows && NeedsFull(w.rows[id], e.at)
  }

  /** Program counters from which a task may still write the refresh time. */
  predicate MaySet(k: Task) {
    k.Live() && k.kind == FullRefresh &&
    (k.pc.Queued? || k.pc.Postponing? || k.pc.Loaded? || k.pc.Locked? || k.pc.Decrypted? || k.pc.Obtained?)
  }

  /** An AP-only task never gets to one that does, nor does a full pass return to one. */
  predicate KindFits(k: Task) {
    k.kind == ApRetry ==> !(k.pc.Postponing? || k.pc.Loaded? || k.pc.Locked? || k.pc.Decrypted? || k.pc.Obtained?)
  }

  ghost predicate AllFit(w: World) { forall t :: t in w.tasks ==> KindFits(w.tasks[t]) }

  ghost predicate Rests(w: World, id: RowId) { forall t :: t in w.tasks && MaySet(w.tasks[t]) ==> w.tasks[t].id != id }

  lemma FitsWork(w: World, w': World, t: TaskId, op: TaskOp)
    requires TaskAt(w, t) && TaskNext(w, w', t, op) && KindFits(w.tasks[t])
    ensures t in w'.tasks && KindFits(w'.tasks[t])
    ensures MaySet(w'.tasks[t]) ==> MaySet(w.tasks[t]) && w'.tasks[t].id == w.tasks[t].id
    ensures SetsTime(w, Work(t, op), w.tasks[t].id) ==> MaySet(w.tasks[t]) && !MaySet(w'.tasks[t])
  {
  }

  lemma RestsNext(w: World, w': World, e: Event, id: RowId)
    requires AllFit(w) && Next(w, w', e)
    ensures AllFit(w')
    ensures Rests(w, id) && !FullClaim(w, e, id) ==> Rests(w', id) && !SetsTime(w, e, id)
  {
    if e.Work? {
      WorkFrame(w, w', e.t, e.op);
      FitsWork(w, w', e.t, e.op);
    } else if e.Front? {
      FrontFrame(w, w', e.cb, e.cop);
    } else {
      forall t | t in w'.tasks
        ensures KindFits(w'.tasks[t])
        ensures Rests(w, id) && !FullClaim(w, e, id) && MaySet(w'.tasks[t]) ==> w'.tasks[t].id != id
      {
        OtherTask(w, w', e, t);
        if t !in w.tasks { NewTaskKind(w, w', e, t); }
      }
    }
  }

  lemma NewTaskKind(w: World, w': World, e: Event, t: TaskId)
    requires e.Claim? && Next(w, w', e) && t in w'.tasks && t !in w.tasks
    ensures t in e.ids && e.ids[t] in e.ids.Values && e.ids[t] in w.rows
    ensures w'.tasks[t].kind == FullRefresh <==> NeedsFull(w.rows[e.ids[t]], e.at)
  {
  }

  lemma {:induction false} RunFits(ws: seq<World>, es: seq<Event>, n: nat)
    requires IsRun(ws, es) && n < |ws|
    ensures AllFit(ws[n])
  {
    if n > 0 {
      RunFits(ws, es, n - 1);
      RestsNext(ws[n - 1], ws[n], es[n - 1], []);
    }
  }

  /** After its rotation the task itself is done with the row, and exclusion keeps all others away. */
  lemma RestsAfterRotation(w: World, w': World, t: TaskId, f: Fresh)
    requires RotateStep(w, w', t, f, true) && AllFit(w) && Exclusive(w)
    ensures Rests(w', w.tasks[t].id)
  {
    forall u | u in w'.tasks && MaySet(w'.tasks[u]) ensures w'.tasks[u].id != w.tasks[t].id {
      assert u != t && w'.tasks[u] == w.tasks[u];
    }
  }

  /** No claim between the two puts the row on the full path. */
  ghost predicate Unclaimed(ws: seq<World>, es: seq<Event>, k: nat, n: nat, id: RowId)
    requires |ws| == |es| + 1 && n < |ws|
  {
    forall j {:trigger es[j]} :: k <= j < n ==> !FullClaim(ws[j], es[j], id)
  }

  ghost predicate RestStep(w: World, w': World, e: Event, id: RowId) {
    Rests(w, id) && !FullClaim(w, e, id) ==> Rests(w', id) && !SetsTime(w, e, id)
  }

  lemma {:induction false} RestsBySteps(ws: seq<World>, es: seq<Event>, k: nat, n: nat, id: RowId)
    requires |ws| == |es| + 1 && k <= n < |ws| && Rests(ws[k], id) && Unclaimed(ws, es, k, n, id)
    requires forall j :: k <= j < n ==> RestStep(ws[j], ws[j + 1], es[j], id)
    ensures Rests(ws[n], id) && Undisturbed(ws, es, k, n, id)
    decreases n
  {
    if k < n {
      RestsBySteps(ws, es, k, n - 1, id);
      assert RestStep(ws[n - 1], ws[n - 1 + 1], es[n - 1], id);
    }
  }

  lemma RowRests(ws: seq<World>, es: seq<Event>, k: nat, n: nat, id: RowId)
    requires IsRun(ws, es) && k <= n < |ws| && Rests(ws[k], id) && Unclaimed(ws, es, k, n, id)
    ensures Undisturbed(ws, es, k, n, id)
  {
    forall j | k <= j < n ensures RestStep(ws[j], ws[j + 1], es[j], id) {
      RunFits(ws, es, j);
      RestsNext(ws[j], ws[j + 1], es[j], id);
    }
    RestsBySteps(ws, es, k, n, id);
  }

  /**
   In every timely run: once a rotation of a row has committed, the next claim that puts the row on the
   full path reads the clock no earlier than five minutes before the new token's end; and where the
   provider named no end, there is no such claim.
   */
  lemma RotatedRowRests(ws: seq<World>, es: seq<Event>, k: nat, n: nat, t: TaskId, f: Fresh, id: RowId)
    requires TimelyRun(ws, es) && k < n < |es| && es[k] == Work(t, Rotate(f, true)) && es[n].Claim?
    requires t in ws[k].tasks && ws[k].tasks[t].id == id && id in ws[k].rows
    requires Unclaimed(ws, es, k + 1, n, id) && FullClaim(ws[n], es[n], id)
    ensures ws[k].tasks[t].pc.Obtained?
    ensures var e := ws[k].tasks[t].pc.parsed.expiresIn;
            e.Some? && e.value != 0 && ws[k].now + e.value - 300 <= es[n].at <= ws[n].now
  {
    RotationDue(ws, es, k, t, f, es[n].at);
    TimeUntilClaim(ws, es, k, n, t, f);
    ClaimReads(ws, es, n);
  }

  lemma RotationDue(ws: seq<World>, es: seq<Event>, k: nat, t: TaskId, f: Fresh, at: int)
    requires IsRun(ws, es) && k < |es| && es[k] == Work(t, Rotate(f, true))
    requires t in ws[k].tasks && ws[k].tasks[t].id in ws[k].rows
    ensures var k0 := ws[k].tasks[t];
            && k0.pc.Obtained? && k0.id in ws[k + 1].rows
            && DueFor(ws[k + 1].rows[k0.id], ws[k].now, k0.pc.parsed.expiresIn, at)
  {
    RotatedDue(ws[k], ws[k + 1], t, f, at);
  }

  lemma TimeUntilClaim(ws: seq<World>, es: seq<Event>, k: nat, n: nat, t: TaskId, f: Fresh)
    requires TimelyRun(ws, es) && k < n < |es| && es[k] == Work(t, Rotate(f, true))
    requires t in ws[k].tasks && ws[k].tasks[t].id in ws[k + 1].rows && ws[k].tasks[t].id in ws[n].rows
    requires Unclaimed(ws, es, k + 1, n, ws[k].tasks[t].id)
    ensures ws[n].rows[ws[k].tasks[t].id].refreshAt == ws[k + 1].rows[ws[k].tasks[t].id].refreshAt
  {
    var id := ws[k].tasks[t].id;
    UndisturbedUntil(ws, es, k, n, t, f);
    OwnedAt(ws, es, k + 1, id);
    RefreshTimeStays(ws, es, k + 1, n, id);
  }

  lemma UndisturbedUntil(ws: seq<World>, es: seq<Event>, k: nat, n: nat, t: TaskId, f: Fresh)
    requires TimelyRun(ws, es) && k < n < |es| && es[k] == Work(t, Rotate(f, true)) && t in ws[k].tasks
    requires Unclaimed(ws, es, k + 1, n, ws[k].tasks[t].id)
    ensures Undisturbed(ws, es, k + 1, n, ws[k].tasks[t].id)
  {
    RestsFrom(ws, es, k, t, f);
    RowRests(ws, es, k + 1, n, ws[k].tasks[t].id);
  }

  lemma OwnedAt(ws: seq<World>, es: seq<Event>, k: nat, id: RowId)
    requires IsRun(ws, es) && k < |ws| && id in ws[k].rows
    ensures id in ws[k].rowOwner
  {
    EveryRowOpens(ws, es, k);
  }

  lemma ClaimReads(ws: seq<World>, es: seq<Event>, n: nat)
    requires IsRun(ws, es) && n < |es| && es[n].Claim?
    ensures es[n].at <= ws[n].now
  {
    assert Next(ws[n], ws[n + 1], es[n]);
  }

  lemma RestsFrom(ws: seq<World>, es: seq<Event>, k: nat, t: TaskId, f: Fresh)
    requires TimelyRun(ws, es) && k < |es| && es[k] == Work(t, Rotate(f, true)) && t in ws[k].tasks
    ensures Rests(ws[k + 1], ws[k].tasks[t].id)
  {
    RunFits(ws, es, k);
    TimelyRunsExclude(ws, es, k);
    RestsAfterRotation(ws[k], ws[k + 1], t, f);
  }
}
