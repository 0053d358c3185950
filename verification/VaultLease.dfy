/** What the lease protects, in every run in which no live task outlives its lease. */
module VaultLease {
  import opened Wrappers
  import opened Envelope
  import opened Vault
  import opened VaultFrames
  import opened VaultSecrets

  /** Mutual exclusion: no two live tasks hold the same token, queued ones included. */
  ghost predicate Exclusive(w: World) {
    forall t, u :: t in w.tasks && u in w.tasks && w.tasks[t].Live() && w.tasks[u].Live() && t != u
      ==> w.tasks[t].id != w.tasks[u].id
  }

  /** A live task's lease is the one its row shows. */
  predicate HoldsLease(w: World, k: Task) {
    k.Live() && k.id in w.rows ==> w.rows[k.id].leaseUntil == Some(k.lease)
  }

  /** Program counters at which a task works from its reading of the row. */
  predicate Reading(pc: TaskPc) {
    pc.Loaded? || pc.Locked? || pc.Decrypted? || pc.Obtained? || pc.ApLoaded? || pc.ApPushed?
  }

  /** What such a task read is still what is stored. */
  predicate ReadsCurrent(w: World, k: Task) {
    k.Live() && k.id in w.rows && Reading(k.pc) ==> SameSecrets(w.rows[k.id], Snap(k.pc).value)
  }

  /** No lost update: the counter column counts the rotations committed on the row. */
  ghost predicate CountsRotations(w: World) {
    forall id :: id in w.rows ==> w.rows[id].refreshCount == w.rows[id].h.rotations
  }

  ghost predicate LeaseInv(w: World) {
    && SecretsInv(w) && Exclusive(w) && CountsRotations(w)
    && (forall t :: t in w.tasks ==> HoldsLease(w, w.tasks[t]) && ReadsCurrent(w, w.tasks[t]))
  }

  // ------------------------------------------------------------------
  // Worker steps
  // ------------------------------------------------------------------

  /** Reading starts with a load of the row and ends with its rotation; a release ends the task. */
  ghost predicate ReadingKept(w: World, w': World, t: TaskId, op: TaskOp) {
    && t in w.tasks && t in w'.tasks
    && var k, k' := w.tasks[t], w'.tasks[t];
       && (k'.Live() ==> !op.Release?)
       && (Reading(k'.pc) ==> !Rotates(w, t, op))
       && (Reading(k'.pc) && !op.Load? ==> Reading(k.pc))
       && (Reading(k'.pc) && op.Load? && k.id in w.rows ==> Snap(k'.pc) == Some(w.rows[k.id]))
  }

  lemma WorkKeepsLease(w: World, w': World, t: TaskId, op: TaskOp)
    requires TaskAt(w, t) && TaskNext(w, w', t, op) && t in w'.tasks
    ensures ReadingKept(w, w', t, op)
  {
  }

  lemma LeaseWork(w: World, w': World, t: TaskId, op: TaskOp)
    requires LeaseInv(w) && TaskAt(w, t) && TaskNext(w, w', t, op)
    ensures LeaseInv(w')
  {
    SecretsWork(w, w', t, op);
    CountsWork(w, w', t, op);
    WorkFrame(w, w', t, op);
    WorkTask(w, w', t, op);
    forall u | u in w'.tasks ensures HoldsLease(w', w'.tasks[u]) && ReadsCurrent(w', w'.tasks[u]) {
      LeaseWorkTask(w, w', t, op, u);
    }
  }

  lemma CountsWork(w: World, w': World, t: TaskId, op: TaskOp)
    requires LeaseInv(w) && TaskAt(w, t) && TaskNext(w, w', t, op)
    ensures CountsRotations(w')
  {
    WorkFrame(w, w', t, op);
    assert ReadsCurrent(w, w.tasks[t]);
    forall id | id in w'.rows ensures w'.rows[id].refreshCount == w'.rows[id].h.rotations {
      if id == w.tasks[t].id { WorkOwnRow(w, w', t, op); } else { WorkOtherRow(w, w', t, op, id); }
    }
  }

  lemma LeaseWorkTask(w: World, w': World, t: TaskId, op: TaskOp, u: TaskId)
    requires LeaseInv(w) && TaskAt(w, t) && TaskNext(w, w', t, op) && u in w'.tasks
    ensures HoldsLease(w', w'.tasks[u]) && ReadsCurrent(w', w'.tasks[u])
  {
    if u == t {
      LeaseWorker(w, w', t, op);
    } else {
      WorkFrame(w, w', t, op);
      var id := w'.tasks[u].id;
      if id in w.rows && w'.tasks[u].Live() { WorkOtherRow(w, w', t, op, id); }
    }
  }

  lemma LeaseWorker(w: World, w': World, t: TaskId, op: TaskOp)
    requires LeaseInv(w) && TaskAt(w, t) && TaskNext(w, w', t, op) && t in w'.tasks
    ensures HoldsLease(w', w'.tasks[t]) && ReadsCurrent(w', w'.tasks[t])
  {
    assert w'.rows.Keys == w.rows.Keys by { WorkFrame(w, w', t, op); }
    assert HoldsLease(w, w.tasks[t]) && ReadsCurrent(w, w.tasks[t]);
    WorkTask(w, w', t, op);
    WorkKeepsLease(w, w', t, op);
    if w.tasks[t].id in w.rows {
      WorkOwnRow(w, w', t, op);
      LeaseCarried(w, w', t, op);
    }
  }

  lemma LeaseCarried(w: World, w': World, t: TaskId, op: TaskOp)
    requires TaskKept(w, w', t, op) && ReadingKept(w, w', t, op) && OwnRowKept(w, w', t, op)
    requires w'.tasks[t].Live() ==> w.tasks[t].Live()
    requires HoldsLease(w, w.tasks[t]) && ReadsCurrent(w, w.tasks[t])
    ensures HoldsLease(w', w'.tasks[t]) && ReadsCurrent(w', w'.tasks[t])
  {
  }

  // ------------------------------------------------------------------
  // Callback steps
  // ------------------------------------------------------------------

  lemma LeaseFront(w: World, w': World, cb: CallbackId, op: CallbackOp)
    requires LeaseInv(w) && CallbackAt(w, cb) && CallbackNext(w, w', cb, op)
    ensures LeaseInv(w')
  {
    SecretsFront(w, w', cb, op);
    FrontFrame(w, w', cb, op);
    forall id | id in w'.rows ensures w'.rows[id].refreshCount == w'.rows[id].h.rotations {
      FrontRow(w, w', cb, op, id);
    }
    forall u | u in w'.tasks ensures HoldsLease(w', w'.tasks[u]) && ReadsCurrent(w', w'.tasks[u]) {
      assert TaskSound(w, w.tasks[u]);
      if w'.tasks[u].id in w'.rows { FrontRow(w, w', cb, op, w'.tasks[u].id); }
    }
  }

  // ------------------------------------------------------------------
  // Other events
  // ------------------------------------------------------------------

  /** A claim stamps its own rows and no other; under the timing hypothesis none of them is held. */
  lemma ClaimTakesFree(w: World, w': World, at: int, limit: nat, ids: map<TaskId, RowId>, u: TaskId)
    requires ClaimStep(w, w', at, limit, ids) && TaskAt(w, u)
    requires HoldsLease(w, w.tasks[u]) && w.now <= w.tasks[u].lease
    ensures w.tasks[u].id !in ids.Values
    ensures w.tasks[u].id in w.rows ==> w'.rows[w.tasks[u].id] == w.rows[w.tasks[u].id]
  {
    assert forall t :: t in ids ==> Claimable(w.rows[ids[t]], at);
  }

  lemma ClaimStamps(w: World, w': World, at: int, limit: nat, ids: map<TaskId, RowId>, u: TaskId)
    requires ClaimStep(w, w', at, limit, ids) && u in ids
    ensures u in w'.tasks && w'.tasks[u].id == ids[u] && w'.tasks[u].pc == Queued
    ensures HoldsLease(w', w'.tasks[u])
  {
    assert ids[u] in ids.Values;
  }

  lemma LeaseClaimTask(w: World, w': World, at: int, limit: nat, ids: map<TaskId, RowId>, u: TaskId)
    requires ClaimStep(w, w', at, limit, ids) && u in w.tasks
    requires HoldsLease(w, w.tasks[u]) && ReadsCurrent(w, w.tasks[u])
    requires w.tasks[u].Live() ==> w.now <= w.tasks[u].lease
    ensures u in w'.tasks && w'.tasks[u] == w.tasks[u]
    ensures HoldsLease(w', w'.tasks[u]) && ReadsCurrent(w', w'.tasks[u])
  {
    if w.tasks[u].Live() { ClaimTakesFree(w, w', at, limit, ids, u); }
  }

  lemma LeaseAfterClaim(w: World, w': World, at: int, limit: nat, ids: map<TaskId, RowId>, u: TaskId)
    requires ClaimStep(w, w', at, limit, ids) && u in w'.tasks
    requires u in w.tasks ==>
               && HoldsLease(w, w.tasks[u]) && ReadsCurrent(w, w.tasks[u])
               && (w.tasks[u].Live() ==> w.now <= w.tasks[u].lease)
    ensures HoldsLease(w', w'.tasks[u]) && ReadsCurrent(w', w'.tasks[u])
  {
    if u in ids { ClaimStamps(w, w', at, limit, ids, u); } else { LeaseClaimTask(w, w', at, limit, ids, u); }
  }

  lemma LeaseOtherTask(w: World, w': World, e: Event, u: TaskId)
    requires LeaseInv(w) && Next(w, w', e) && !e.Work? && !e.Front? && !e.Claim? && u in w'.tasks
    ensures HoldsLease(w', w'.tasks[u]) && ReadsCurrent(w', w'.tasks[u])
  {
    OtherFrame(w, w', e);
    if w'.tasks[u].id in w.rows { OtherRow(w, w', e, w'.tasks[u].id); }
  }

  lemma LeaseOther(w: World, w': World, e: Event)
    requires LeaseInv(w) && Timely(w) && Next(w, w', e) && !e.Work? && !e.Front?
    ensures LeaseInv(w')
  {
    SecretsOther(w, w', e);
    OtherFrame(w, w', e);
    forall id | id in w'.rows ensures w'.rows[id].refreshCount == w'.rows[id].h.rotations {
      OtherRow(w, w', e, id);
    }
    forall u | u in w'.tasks ensures HoldsLease(w', w'.tasks[u]) && ReadsCurrent(w', w'.tasks[u]) {
      if e.Claim? { LeaseAfterClaim(w, w', e.at, e.limit, e.ids, u); } else { LeaseOtherTask(w, w', e, u); }
    }
    ExclusiveOther(w, w', e);
  }

  lemma ExclusiveOther(w: World, w': World, e: Event)
    requires LeaseInv(w) && Timely(w) && Next(w, w', e) && !e.Work? && !e.Front?
    ensures Exclusive(w')
  {
    forall t, u | t in w'.tasks && u in w'.tasks && w'.tasks[t].Live() && w'.tasks[u].Live() && t != u
      ensures w'.tasks[t].id != w'.tasks[u].id
    {
      OtherTask(w, w', e, t);
      OtherTask(w, w', e, u);
      if t in w.tasks && u !in w.tasks {
        ClaimTakesFree(w, w', e.at, e.limit, e.ids, t);
        assert e.ids[u] in e.ids.Values;
      } else if t !in w.tasks && u in w.tasks {
        ClaimTakesFree(w, w', e.at, e.limit, e.ids, u);
        assert e.ids[t] in e.ids.Values;
      }
    }
  }

  lemma LeaseNext(w: World, w': World, e: Event)
    requires LeaseInv(w) && Timely(w) && Next(w, w', e)
    ensures LeaseInv(w')
  {
    if e.Work? { LeaseWork(w, w', e.t, e.op); }
    else if e.Front? { LeaseFront(w, w', e.cb, e.cop); }
    else { LeaseOther(w, w', e); }
  }

  // ------------------------------------------------------------------
  // Runs
  // ------------------------------------------------------------------

  ghost predicate TimelyRun(ws: seq<World>, es: seq<Event>) {
    IsRun(ws, es) && forall k :: 0 <= k < |ws| ==> Timely(ws[k])
  }

  /**
   In every timely run of any number of replicas, with crashes anywhere: no two live tasks hold one
   token, and every row's refresh_count is the number of rotations committed on it.
   */
  lemma {:induction false} TimelyRunsExclude(ws: seq<World>, es: seq<Event>, n: nat)
    requires TimelyRun(ws, es) && n < |ws|
    ensures LeaseInv(ws[n])
    ensures Exclusive(ws[n]) && CountsRotations(ws[n])
  {
    if n > 0 {
      TimelyRunsExclude(ws, es, n - 1);
      LeaseNext(ws[n - 1], ws[n], es[n - 1]);
    }
  }

  /**
   The timing hypothesis is what exclusion rests on: a row held by a live task can be claimed again
   exactly when the row still needs work and the task has outlived its lease.
   */
  lemma ReclaimableExactlyOnOverrun(w: World, t: TaskId)
    requires LeaseInv(w) && TaskAt(w, t) && w.tasks[t].id in w.rows
    ensures var r := w.rows[w.tasks[t].id];
            (exists at :: at <= w.now && Claimable(r, at)) <==>
            (r.status == Active && (NeedsFull(r, w.now) || r.syncPending) && w.tasks[t].lease < w.now)
  {
    var r := w.rows[w.tasks[t].id];
    assert HoldsLease(w, w.tasks[t]);
    if r.status == Active && (NeedsFull(r, w.now) || r.syncPending) && w.tasks[t].lease < w.now {
      assert Claimable(r, w.now);
    }
  }

  /**
   A committed rotation is counted exactly when the task read the counter the row still has: the
   count written back is the one read, plus one.
   */
  lemma RotationCountedIff(w: World, w': World, t: TaskId, f: Fresh)
    requires RotateStep(w, w', t, f, true) && w.tasks[t].id in w.rows
    requires w.rows[w.tasks[t].id].refreshCount == w.rows[w.tasks[t].id].h.rotations
    ensures var id := w.tasks[t].id;
            && id in w'.rows && w'.rows[id].h.rotations == w.rows[id].h.rotations + 1
            && (w'.rows[id].refreshCount == w'.rows[id].h.rotations <==>
                w.tasks[t].pc.row.refreshCount == w.rows[id].refreshCount)
  {
  }

  /**
   Two tasks that both read the row before either rotated it commit two rotations and leave a count
   of one more.
   */
  lemma OverlapLosesAnUpdate(w0: World, w1: World, w2: World, t: TaskId, u: TaskId, f: Fresh, g: Fresh)
    requires t != u && TaskAt(w0, t) && TaskAt(w0, u) && w0.tasks[t].id == w0.tasks[u].id
    requires w0.tasks[t].id in w0.rows && w0.tasks[t].pc.Obtained? && w0.tasks[u].pc.Obtained?
    requires w0.tasks[t].pc.row.refreshCount == w0.rows[w0.tasks[t].id].refreshCount
    requires w0.tasks[u].pc.row.refreshCount == w0.rows[w0.tasks[t].id].refreshCount
    requires RotateStep(w0, w1, t, f, true) && RotateStep(w1, w2, u, g, true)
    ensures var id := w0.tasks[t].id;
            && id in w2.rows && w2.rows[id].h.rotations == w0.rows[id].h.rotations + 2
            && w2.rows[id].refreshCount == w0.rows[id].refreshCount + 1
  {
  }
}
