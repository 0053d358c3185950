/**
 What lets a pass go on, and what a whole pass without a fault leaves behind: the Redis key, the reading
 of an ACTIVE row, the provider's refusal, and a refresh and a retry from claim to release.
 */
module VaultPasses {
  import opened Wrappers
  import opened Envelope
  import opened Vault
  import opened VaultFrames
  import opened VaultStatus
  import opened VaultSecrets
  import opened VaultSync
  import opened VaultDue
  import opened VaultScenarios

  // ------------------------------------------------------------------
  // The Redis key
  // ------------------------------------------------------------------

  /** The step sets the key of the row. */
  predicate Acquires(w: World, w': World, e: Event, id: RowId) {
    && e.Work? && e.op.Lock? && e.t in w.tasks && w.tasks[e.t].id == id
    && e.t in w'.tasks && (w'.tasks[e.t].pc.Locked? || w'.tasks[e.t].pc.ApLocked?)
  }

  predicate Unlocks(w: World, e: Event, id: RowId) {
    e.Work? && e.op == Unlock(true) && e.t in w.tasks && w.tasks[e.t].id == id
  }

  /** A task goes on exactly when the key is absent or has expired; the key is then good for 300 seconds. */
  lemma LockIff(w: World, w': World, t: TaskId)
    requires LockStep(w, w', t)
    ensures var id := w.tasks[t].id;
            && (Acquires(w, w', Work(t, Lock), id) <==> !(id in w.locks && w.now < w.locks[id]))
            && (Acquires(w, w', Work(t, Lock), id) ==> id in w'.locks && w'.locks[id] == w.now + 300)
            && (!Acquires(w, w', Work(t, Lock), id) ==> w'.locks == w.locks && w'.tasks[t].pc == Releasing)
  {
  }

  /** A key that nobody deletes stays, and is not set again before its end. */
  ghost predicate KeyStep(w: World, w': World, e: Event, id: RowId) {
    id in w.locks && !Unlocks(w, e, id) ==>
      && id in w'.locks && w'.locks[id] >= w.locks[id]
      && (Acquires(w, w', e, id) ==> w.now >= w.locks[id])
  }

  lemma KeyNext(w: World, w': World, e: Event, id: RowId)
    requires Next(w, w', e)
    ensures KeyStep(w, w', e, id) && w.now <= w'.now
  {
    if e.Work? { KeyWork(w, w', e.t, e.op, id); }
    else if e.Front? { FrontFrame(w, w', e.cb, e.cop); }
    else { OtherFrame(w, w', e); }
  }

  lemma KeyWork(w: World, w': World, t: TaskId, op: TaskOp, id: RowId)
    requires TaskAt(w, t) && TaskNext(w, w', t, op)
    ensures KeyStep(w, w', Work(t, op), id) && w'.now == w.now
  {
    WorkFrame(w, w', t, op);
    if op.Lock? || op.Unlock? { } else { OtherLocks(w, w', t, op); }
  }

  lemma OtherLocks(w: World, w': World, t: TaskId, op: TaskOp)
    requires TaskAt(w, t) && TaskNext(w, w', t, op) && !op.Lock? && !op.Unlock?
    ensures w'.locks == w.locks
  {
  }

  ghost predicate NoUnlock(ws: seq<World>, es: seq<Event>, m: nat, n: nat, id: RowId)
    requires |ws| == |es| + 1 && n < |ws|
  {
    forall k {:trigger es[k]} :: m <= k < n ==> !Unlocks(ws[k], es[k], id)
  }

  lemma {:induction false} KeyBySteps(ws: seq<World>, es: seq<Event>, m: nat, n: nat, id: RowId, until: int)
    requires |ws| == |es| + 1 && m <= n < |ws| && NoUnlock(ws, es, m, n, id)
    requires forall k :: m <= k < n ==> KeyStep(ws[k], ws[k + 1], es[k], id)
    requires id in ws[m].locks && ws[m].locks[id] >= until
    ensures id in ws[n].locks && ws[n].locks[id] >= until
    decreases n
  {
    if m < n {
      KeyBySteps(ws, es, m, n - 1, id, until);
      assert KeyStep(ws[n - 1], ws[n - 1 + 1], es[n - 1], id);
    }
  }

  /**
   In every run: between two tasks that set the key of one row, the key was deleted, or 300 seconds
   passed.
   */
  lemma LockExcludes(ws: seq<World>, es: seq<Event>, m: nat, n: nat, id: RowId)
    requires IsRun(ws, es) && m < n < |es|
    requires Acquires(ws[m], ws[m + 1], es[m], id) && Acquires(ws[n], ws[n + 1], es[n], id)
    requires NoUnlock(ws, es, m + 1, n, id)
    ensures ws[n].now >= ws[m].now + 300
  {
    KeySet(ws, es, m, id);
    forall k | 0 <= k < |es| ensures KeyStep(ws[k], ws[k + 1], es[k], id) { KeyNext(ws[k], ws[k + 1], es[k], id); }
    KeyBySteps(ws, es, m + 1, n, id, ws[m].now + 300);
    assert KeyStep(ws[n], ws[n + 1], es[n], id);
  }

  lemma KeySet(ws: seq<World>, es: seq<Event>, m: nat, id: RowId)
    requires IsRun(ws, es) && m < |es| && Acquires(ws[m], ws[m + 1], es[m], id)
    ensures id in ws[m + 1].locks && ws[m + 1].locks[id] == ws[m].now + 300
  {
    assert Next(ws[m], ws[m + 1], es[m]);
    LockIff(ws[m], ws[m + 1], es[m].t);
  }

  /** The program counters between setting the key and deleting it. */
  predicate InLock(pc: TaskPc) {
    || pc.Locked? || pc.Decrypted? || pc.Obtained? || pc.Committed? || pc.Pushed? || pc.Marking?
    || pc.ApLocked? || pc.ApLoaded? || pc.ApPushed? || pc.Unlocking?
  }

  predicate Holding(w: World, t: TaskId) { t in w.tasks && InLock(w.tasks[t].pc) }

  /** A task comes to hold the key by setting it, and is rid of it by the step that deletes it, whatever fails. */
  ghost predicate HoldStep(w: World, w': World, e: Event, t: TaskId) {
    && (Holding(w', t) && !Holding(w, t) ==> t in w'.tasks && e == Work(t, Lock) && Acquires(w, w', e, w'.tasks[t].id))
    && (Holding(w, t) && !Holding(w', t) ==> e.Work? && e.t == t && e.op.Unlock?)
    && (t in w.tasks && e.Work? && e.t == t && e.op.Unlock? ==> Holding(w, t) && !Holding(w', t))
  }

  lemma HoldNext(w: World, w': World, e: Event, t: TaskId)
    requires Next(w, w', e)
    ensures HoldStep(w, w', e, t)
  {
    if e.Work? {
      if e.t == t { HoldWork(w, w', t, e.op); } else { WorkFrame(w, w', e.t, e.op); }
    } else if e.Front? {
      FrontFrame(w, w', e.cb, e.cop);
    } else {
      HoldOther(w, w', e, t);
    }
  }

  lemma HoldOther(w: World, w': World, e: Event, t: TaskId)
    requires Next(w, w', e) && !e.Work? && !e.Front?
    ensures Holding(w', t) <==> Holding(w, t)
  {
    if t in w'.tasks { OtherTask(w, w', e, t); }
    if t in w.tasks { StillThere(w, w', e, t); }
  }

  lemma HoldWork(w: World, w': World, t: TaskId, op: TaskOp)
    requires TaskAt(w, t) && TaskNext(w, w', t, op)
    ensures HoldStep(w, w', Work(t, op), t)
  {
    if op.Lock? { } else if op.Unlock? { } else { HoldOn(w, w', t, op); }
  }

  lemma HoldOn(w: World, w': World, t: TaskId, op: TaskOp)
    requires TaskAt(w, t) && TaskNext(w, w', t, op) && !op.Lock? && !op.Unlock?
    ensures Holding(w', t) <==> Holding(w, t)
  {
  }

  /** A task ends by the step that releases its lease, and by no other. */
  lemma EndsByRelease(w: World, w': World, t: TaskId, op: TaskOp)
    requires TaskAt(w, t) && TaskNext(w, w', t, op)
    ensures t in w'.tasks && (w'.tasks[t].pc == Done ==> op.Release?)
    ensures op == Release(true) && w.tasks[t].id in w.rows ==>
              w.tasks[t].id in w'.rows && w'.rows[w.tasks[t].id] == w.rows[w.tasks[t].id].(leaseUntil := None)
  {
  }

  ghost predicate NoUnlockBy(es: seq<Event>, m: nat, n: nat, t: TaskId)
    requires n <= |es|
  {
    forall k :: m <= k < n ==> !(es[k].Work? && es[k].t == t && es[k].op.Unlock?)
  }

  lemma {:induction false} HoldsOn(ws: seq<World>, es: seq<Event>, m: nat, n: nat, t: TaskId)
    requires |ws| == |es| + 1 && m <= n < |ws| && Holding(ws[m], t) && NoUnlockBy(es, m, n, t)
    requires forall k :: m <= k < n ==> HoldStep(ws[k], ws[k + 1], es[k], t)
    ensures Holding(ws[n], t)
    decreases n
  {
    if m < n {
      HoldsOn(ws, es, m, n - 1, t);
      assert HoldStep(ws[n - 1], ws[n - 1 + 1], es[n - 1], t);
    }
  }

  lemma {:induction false} HoldsSince(ws: seq<World>, es: seq<Event>, n: nat, t: TaskId) returns (m: nat)
    requires |ws| == |es| + 1 && n < |ws| && Holding(ws[n], t) && !Holding(ws[0], t)
    requires forall k :: 0 <= k < n ==> HoldStep(ws[k], ws[k + 1], es[k], t)
    ensures m < n && es[m] == Work(t, Lock) && Holding(ws[m + 1], t) && !Holding(ws[m], t)
  {
    assert HoldStep(ws[n - 1], ws[n - 1 + 1], es[n - 1], t);
    if Holding(ws[n - 1], t) { m := HoldsSince(ws, es, n - 1, t); } else { m := n - 1; }
  }

  /**
   In every run, whatever is raised on the way: a task that has set the key goes through the deletion
   before it releases its lease, and only a task that has set the key gets to the deletion.
   */
  lemma KeyIsGivenBack(ws: seq<World>, es: seq<Event>, m: nat, n: nat, t: TaskId)
    requires IsRun(ws, es) && m <= n < |ws| && Holding(ws[m], t) && t in ws[n].tasks
    requires ws[n].tasks[t].pc in {Releasing, Done}
    ensures !NoUnlockBy(es, m, n, t)
  {
    if NoUnlockBy(es, m, n, t) {
      forall k | m <= k < n ensures HoldStep(ws[k], ws[k + 1], es[k], t) { HoldNext(ws[k], ws[k + 1], es[k], t); }
      HoldsOn(ws, es, m, n, t);
    }
  }

  lemma UnlocksWhatItLocked(ws: seq<World>, es: seq<Event>, n: nat, t: TaskId, commit: bool) returns (m: nat)
    requires IsRun(ws, es) && n < |es| && es[n] == Work(t, Unlock(commit))
    ensures m < n && es[m] == Work(t, Lock) && Holding(ws[m + 1], t) && !Holding(ws[m], t)
  {
    forall k | 0 <= k < |es| ensures HoldStep(ws[k], ws[k + 1], es[k], t) { HoldNext(ws[k], ws[k + 1], es[k], t); }
    UnlocksHeld(ws, es, n, t, commit);
    assert ws[0].tasks == map[];
    m := HoldsSince(ws, es, n, t);
  }

  lemma UnlocksHeld(ws: seq<World>, es: seq<Event>, n: nat, t: TaskId, commit: bool)
    requires IsRun(ws, es) && n < |es| && es[n] == Work(t, Unlock(commit))
    ensures Holding(ws[n], t)
  {
    assert Next(ws[n], ws[n + 1], es[n]);
  }

  // ------------------------------------------------------------------
  // Only ACTIVE rows are worked on
  // ------------------------------------------------------------------

  /** The task read this row in that world, when it was ACTIVE. */
  predicate ReadIn(w: World, e: Event, t: TaskId, r: Row) {
    && e == Work(t, Load) && t in w.tasks && w.tasks[t].id in w.rows
    && w.rows[w.tasks[t].id] == r && r.status == Active
  }

  lemma LoadReads(w: World, w': World, t: TaskId)
    requires LoadStep(w, w', t) && t in w'.tasks && Snap(w'.tasks[t].pc).Some?
    ensures ReadIn(w, Work(t, Load), t, Snap(w'.tasks[t].pc).value)
    ensures w'.tasks[t].pc.Loaded? ==> w'.tasks[t].pc.row.refresh.Some?
    ensures w'.tasks[t].pc.ApLoaded? || w'.tasks[t].pc.ApPushed? ==> w'.tasks[t].pc.row.syncPending
  {
  }

  ghost predicate SnapStep(w: World, w': World, e: Event, t: TaskId) {
    t in w'.tasks && Snap(w'.tasks[t].pc).Some? ==>
      || ReadIn(w, e, t, Snap(w'.tasks[t].pc).value)
      || (t in w.tasks && Snap(w.tasks[t].pc) == Snap(w'.tasks[t].pc) && w.tasks[t].id == w'.tasks[t].id)
  }

  lemma SnapNext(w: World, w': World, e: Event, t: TaskId)
    requires Next(w, w', e)
    ensures SnapStep(w, w', e, t)
  {
    if e.Work? { SnapWork(w, w', e.t, e.op, t); }
    else if e.Front? { FrontFrame(w, w', e.cb, e.cop); }
    else if t in w'.tasks { OtherTask(w, w', e, t); }
  }

  lemma SnapWork(w: World, w': World, u: TaskId, op: TaskOp, t: TaskId)
    requires TaskAt(w, u) && TaskNext(w, w', u, op)
    ensures SnapStep(w, w', Work(u, op), t)
  {
    WorkFrame(w, w', u, op);
    if t == u {
      if op.Load? {
        if Snap(w'.tasks[t].pc).Some? { LoadReads(w, w', t); }
      } else {
        WorkTask(w, w', u, op);
      }
    }
  }

  /** In every run, what a task works from it once read, and the row was ACTIVE then. */
  lemma {:induction false} WorksFromActive(ws: seq<World>, es: seq<Event>, n: nat, t: TaskId) returns (m: nat)
    requires IsRun(ws, es) && n < |ws| && t in ws[n].tasks && Snap(ws[n].tasks[t].pc).Some?
    ensures m < n && ReadIn(ws[m], es[m], t, Snap(ws[n].tasks[t].pc).value)
  {
    assert n > 0 by { if n == 0 { assert ws[0].tasks == map[]; } }
    SnapExtends(ws, es, n, t);
    if ReadIn(ws[n - 1], es[n - 1], t, Snap(ws[n].tasks[t].pc).value) {
      m := n - 1;
    } else {
      m := WorksFromActive(ws, es, n - 1, t);
    }
  }

  lemma SnapExtends(ws: seq<World>, es: seq<Event>, n: nat, t: TaskId)
    requires IsRun(ws, es) && 0 < n < |ws|
    ensures SnapStep(ws[n - 1], ws[n], es[n - 1], t)
  {
    SnapNext(ws[n - 1], ws[n], es[n - 1], t);
  }

  /** So no provider is ever asked about a row that was not ACTIVE when the task read it. */
  lemma OnlyActiveIsRefreshed(ws: seq<World>, es: seq<Event>, n: nat, t: TaskId, answer: ProviderReply) returns (m: nat)
    requires IsRun(ws, es) && n < |es| && es[n] == Work(t, AskProvider(answer))
    ensures m < n && t in ws[n].tasks && ws[n].tasks[t].pc.Decrypted?
    ensures ReadIn(ws[m], es[m], t, ws[n].tasks[t].pc.row)
  {
    assert Next(ws[n], ws[n + 1], es[n]);
    m := WorksFromActive(ws, es, n, t);
  }

  // ------------------------------------------------------------------
  // What the provider's answer leads to
  // ------------------------------------------------------------------

  lemma AnswerLeads(w: World, w': World, t: TaskId, answer: ProviderReply)
    requires AskProviderStep(w, w', t, answer)
    ensures t in w'.tasks && w'.rows == w.rows && w'.locks == w.locks && w'.conns == w.conns
    ensures var pc := w'.tasks[t].pc;
            && (answer.Granted? ==> pc == Obtained(w.tasks[t].pc.row, answer.parsed))
            && (answer.Terminal? ==> pc.Marking? && pc.status == Revoked)
            && (answer.Transient? ==> pc == Unlocking)
  {
  }

  /**
   In every run, with any steps of others in between: after a terminal refusal the mark leaves the row
   REVOKED if and only if at that moment no other row of its account is; otherwise nothing changes.
   */
  lemma TerminalEndsRevokedIff(ws: seq<World>, es: seq<Event>, m: nat, n: nat, t: TaskId)
    requires IsRun(ws, es) && m < n < |es|
    requires es[m] == Work(t, AskProvider(Terminal)) && es[n] == Work(t, Mark(true)) && Resting(es, m + 1, n, t)
    requires t in ws[n].tasks && ws[n].tasks[t].id in ws[n].rows
    ensures var id := ws[n].tasks[t].id;
            && id in ws[n + 1].rows
            && (ws[n + 1].rows[id].status == Revoked <==> !StatusTaken(ws[n].rows, id, Revoked))
            && (StatusTaken(ws[n].rows, id, Revoked) ==> ws[n + 1].rows == ws[n].rows)
  {
    TerminalMarks(ws, es, m, t);
    RunRests(ws, es, m + 1, n, t);
    RunStatus(ws, es, n);
    MarkedRevoked(ws[n], ws[n + 1], t);
  }

  lemma TerminalMarks(ws: seq<World>, es: seq<Event>, m: nat, t: TaskId)
    requires IsRun(ws, es) && m < |es| && es[m] == Work(t, AskProvider(Terminal))
    ensures t in ws[m + 1].tasks && ws[m + 1].tasks[t].pc.Marking? && ws[m + 1].tasks[t].pc.status == Revoked
  {
    AnswerLeads(ws[m], ws[m + 1], t, Terminal);
  }

  lemma MarkedRevoked(w: World, w': World, t: TaskId)
    requires Next(w, w', Work(t, Mark(true))) && UniqueOk(w.rows)
    requires t in w.tasks && w.tasks[t].id in w.rows && w.tasks[t].pc.Marking? && w.tasks[t].pc.status == Revoked
    ensures var id := w.tasks[t].id;
            && id in w'.rows
            && (w'.rows[id].status == Revoked <==> !StatusTaken(w.rows, id, Revoked))
            && (StatusTaken(w.rows, id, Revoked) ==> w'.rows == w.rows)
  {
    MarkOutcome(w, w', t);
    var id := w.tasks[t].id;
    if j :| j in w.rows && j != id && SameAccount(w.rows[id], w.rows[j]) && w.rows[j].status == Revoked {
      assert !Clash(w.rows[id], w.rows[j]);
    }
  }
}
