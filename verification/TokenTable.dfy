/**
 The token table as the transactions see it: one object updated statement by statement, with the
 unique constraint checked after every statement and the whole transaction rolled back on a breach.
 Each method is proved to do what one step of the vault's state machine does.
 */
module TokenTable {
  import opened Wrappers
  import opened Envelope
  import opened Vault
  import opened VaultStatus

  predicate Distinct(ids: seq<RowId>) { forall i, j :: 0 <= i < j < |ids| ==> ids[i] != ids[j] }

  /** Ascending refresh time, rows without one last. */
  predicate NotAfter(r: Row, s: Row) {
    s.refreshAt.None? || (r.refreshAt.Some? && r.refreshAt.value <= s.refreshAt.value)
  }

  /** What the claim's SELECT may return: the first `limit` claimable rows that nobody has locked. */
  ghost predicate IsBatch(rows: Rows, at: int, limit: nat, locked: set<RowId>, ids: seq<RowId>) {
    && Distinct(ids) && |ids| <= limit
    && (forall i :: 0 <= i < |ids| ==> ids[i] in rows && ids[i] !in locked && Claimable(rows[ids[i]], at))
    && (forall i, j :: 0 <= i < j < |ids| ==> NotAfter(rows[ids[i]], rows[ids[j]]))
    && (forall id :: id in rows && id !in locked && Claimable(rows[id], at) && id !in ids ==>
          |ids| == limit && forall i :: 0 <= i < |ids| ==> NotAfter(rows[ids[i]], rows[id]))
  }

  /** The sub-sequence of rows due for a full refresh, or of those that are not. */
  function Due(rows: Rows, at: int, ids: seq<RowId>, full: bool): seq<RowId>
    requires forall i :: 0 <= i < |ids| ==> ids[i] in rows
  {
    if ids == [] then []
    else
      var n := |ids| - 1;
      Due(rows, at, ids[..n], full) + if NeedsFull(rows[ids[n]], at) == full then [ids[n]] else []
  }

  class Table {
    var rows: Rows

    constructor ()
      ensures rows == map[]
    {
      rows := map[];
    }

    /** Would storing `r` under `id` breach the unique constraint? */
    predicate Breach(id: RowId, r: Row)
      reads this
    {
      exists j :: j in rows && j != id && Clash(r, rows[j])
    }

    /** The claim transaction: stamp the lease on every selected row, then split the batch in two. */
    method ClaimDueTokens(at: int, limit: nat, ghost locked: set<RowId>, ids: seq<RowId>)
      returns (full: seq<RowId>, retry: seq<RowId>)
      requires IsBatch(rows, at, limit, locked, ids)
      modifies this
      ensures rows == Stamped(old(rows), ids, at + REFRESH_LEASE_TTL_SECONDS)
      ensures full == Due(old(rows), at, ids, true)
      ensures retry == Due(old(rows), at, ids, false)
    {
      var before := rows;
      for i := 0 to |ids|
        invariant rows == Stamped(before, ids[..i], at + REFRESH_LEASE_TTL_SECONDS)
      {
        StampOneMore(before, at, ids, i);
        rows := rows[ids[i] := rows[ids[i]].(leaseUntil := Some(at + REFRESH_LEASE_TTL_SECONDS))];
      }
      assert ids[..|ids|] == ids;
      full, retry := [], [];
      for i := 0 to |ids|
        invariant full == Due(before, at, ids[..i], true)
        invariant retry == Due(before, at, ids[..i], false)
      {
        assert ids[..i + 1][..i] == ids[..i];
        if NeedsFull(before[ids[i]], at) {
          full := full + [ids[i]];
        } else if before[ids[i]].syncPending {
          retry := retry + [ids[i]];
        }
      }
      assert ids[..|ids|] == ids;
    }

    /** The webhook transaction over the rows its SELECT returned, in their order. */
    method RevokeTeam(provider: Bytes, account: Bytes, selected: seq<RowId>)
      returns (ok: bool, revoked: seq<RowId>)
      requires UniqueOk(rows) && Distinct(selected)
      requires forall id :: id in selected <==> id in rows && Targeted(rows[id], provider, account)
      modifies this
      ensures ok <==> UniqueOk(RevokeAccount(old(rows), provider, account))
      ensures ok ==> rows == RevokeAccount(old(rows), provider, account) && revoked == selected
      ensures !ok ==> rows == old(rows) && revoked == []
    {
      var before := rows;
      revoked := [];
      for i := 0 to |selected|
        invariant revoked == selected[..i]
        invariant rows == RevokedSoFar(before, selected, i)
        invariant forall k :: 0 <= k < i ==> !AccountIsFull(before, before[selected[k]])
      {
        var id := selected[i];
        var r := rows[id].(status := Revoked);
        SiblingIsOld(before, provider, account, selected, i);
        if Breach(id, r) {
          RevocationCommitsIff(before, provider, account);
          rows := before;
          return false, [];
        }
        rows := rows[id := r];
        revoked := revoked + [id];
        RevokedOneMore(before, selected, i);
      }
      RevocationCommitsIff(before, provider, account);
      ok := true;
      RevokedThemAll(before, provider, account, selected);
    }

    /** The callback's transaction: soft-revoke the previous row of the account, then insert. */
    method PersistTokens(id: RowId, r: Row) returns (ok: bool)
      requires UniqueOk(rows) && id !in rows && r.status == Active
      modifies this
      ensures ok <==> UniqueOk(InsertToken(old(rows), id, r))
      ensures rows == if ok then InsertToken(old(rows), id, r) else old(rows)
    {
      var before := rows;
      rows := RevokePrevious(rows, r.tenant, r.provider, r.account);
      InsertStatements(before, id, r);
      if !UniqueOk(rows) {
        rows := before;
        return false;
      }
      if Breach(id, r) {
        rows := before;
        return false;
      }
      rows := rows[id := r];
      ok := true;
    }
  }

  // ------------------------------------------------------------------
  // The summary of a pass
  // ------------------------------------------------------------------

  datatype Summary = Summary(claimed: nat, full: nat, retry: nat, actions: map<string, nat>)

  function Count(actions: map<string, nat>, action: string): nat { if action in actions then actions[action] else 0 }

  /** One outcome for each listed token, in order. */
  function Outcomes(ids: seq<RowId>, run: RowId -> string): seq<string> {
    seq(|ids|, i requires 0 <= i < |ids| => run(ids[i]))
  }

  /** Runs every claimed token on its path and tallies the outcomes: none is lost, none counted twice. */
  method Summarize(full: seq<RowId>, retry: seq<RowId>, refresh: RowId -> string, resync: RowId -> string)
    returns (s: Summary)
    ensures s.full == |full| && s.retry == |retry| && s.claimed == s.full + s.retry
    ensures forall a :: Count(s.actions, a) ==
              multiset(Outcomes(full, refresh))[a] + multiset(Outcomes(retry, resync))[a]
  {
    var results := Outcomes(full, refresh) + Outcomes(retry, resync);
    var actions: map<string, nat> := map[];
    for i := 0 to |results|
      invariant forall a :: Count(actions, a) == multiset(results[..i])[a]
    {
      var a := results[i];
      assert results[..i + 1] == results[..i] + [a];
      actions := actions[a := Count(actions, a) + 1];
    }
    assert results[..|results|] == results;
    s := Summary(|full| + |retry|, |full|, |retry|, actions);
  }

  // ------------------------------------------------------------------
  // Lemmas about the statements
  // ------------------------------------------------------------------

  /** The table after the first `i` rows of a revocation. */
  function RevokedSoFar(rows: Rows, selected: seq<RowId>, i: nat): Rows
    requires i <= |selected|
  {
    map id | id in rows :: if id in selected[..i] then rows[id].(status := Revoked) else rows[id]
  }

  function Stamped(rows: Rows, ids: seq<RowId>, until: int): Rows { StampLease(rows, (set id | id in ids), until) }

  lemma StampOneMore(rows: Rows, at: int, ids: seq<RowId>, i: nat)
    requires i < |ids| && ids[i] in rows
    ensures var lease := at + REFRESH_LEASE_TTL_SECONDS;
            var now := Stamped(rows, ids[..i], lease);
            ids[i] in now &&
            Stamped(rows, ids[..i + 1], lease) == now[ids[i] := now[ids[i]].(leaseUntil := Some(lease))]
  {
    assert ids[..i + 1] == ids[..i] + [ids[i]];
  }

  lemma RevokedOneMore(rows: Rows, selected: seq<RowId>, i: nat)
    requires i < |selected| && selected[i] in rows
    ensures RevokedSoFar(rows, selected, i + 1) ==
            RevokedSoFar(rows, selected, i)[selected[i] := rows[selected[i]].(status := Revoked)]
  {
    assert selected[..i + 1] == selected[..i] + [selected[i]];
  }

  lemma RevokedThemAll(rows: Rows, provider: Bytes, account: Bytes, selected: seq<RowId>)
    requires forall id :: id in selected <==> id in rows && Targeted(rows[id], provider, account)
    ensures RevokedSoFar(rows, selected, |selected|) == RevokeAccount(rows, provider, account)
  {
    assert selected[..|selected|] == selected;
  }

  /** A row being revoked can only clash with a sibling that was revoked before the webhook came. */
  lemma SiblingIsOld(rows: Rows, provider: Bytes, account: Bytes, selected: seq<RowId>, i: nat)
    requires UniqueOk(rows) && Distinct(selected) && i < |selected|
    requires forall id :: id in selected <==> id in rows && Targeted(rows[id], provider, account)
    ensures selected[i] in rows && selected[i] !in selected[..i]
    ensures AccountIsFull(rows, rows[selected[i]]) <==>
            exists j :: j in rows && j != selected[i]
                        && Clash(rows[selected[i]].(status := Revoked), RevokedSoFar(rows, selected, i)[j])
  {
    var id := selected[i];
    var now := RevokedSoFar(rows, selected, i);
    var r := rows[id].(status := Revoked);
    assert id in selected;
    if AccountIsFull(rows, rows[id]) {
      var a, b :| a in rows && b in rows && SameAccount(rows[id], rows[a]) && SameAccount(rows[id], rows[b])
                  && rows[a].status == Active && rows[b].status == Revoked;
      assert b !in selected[..i];
      assert Clash(r, now[b]);
    }
    forall k | k in selected[..i] ensures !Clash(r, now[k]) {
      assert k in selected && k != id;
      assert !Clash(rows[id], rows[k]);
    }
    if j :| j in rows && j != id && Clash(r, now[j]) {
      assert SameAccount(rows[id], rows[id]) && SameAccount(rows[id], rows[j]);
    }
  }

  /** An insert is unique exactly when neither of its two statements breaches the constraint. */
  lemma InsertStatements(rows: Rows, id: RowId, r: Row)
    requires UniqueOk(rows) && id !in rows
    ensures var mid := RevokePrevious(rows, r.tenant, r.provider, r.account);
            UniqueOk(InsertToken(rows, id, r)) <==>
            UniqueOk(mid) && !(exists j :: j in mid && j != id && Clash(r, mid[j]))
  {
    var mid := RevokePrevious(rows, r.tenant, r.provider, r.account);
    var after := InsertToken(rows, id, r);
    assert after == mid[id := r] && id !in mid;
    if UniqueOk(after) {
      forall i, j | i in mid && j in mid && i != j ensures !Clash(mid[i], mid[j]) {
        assert !Clash(after[i], after[j]);
      }
      forall j | j in mid && j != id ensures !Clash(r, mid[j]) { assert !Clash(after[id], after[j]); }
    }
  }

  /** The two lists of a claim are its batch, split by whether the row is due for a full refresh. */
  lemma {:induction false} DueSplits(rows: Rows, at: int, ids: seq<RowId>)
    requires forall i :: 0 <= i < |ids| ==> ids[i] in rows
    ensures multiset(Due(rows, at, ids, true)) + multiset(Due(rows, at, ids, false)) == multiset(ids)
  {
    var full, rest := multiset(Due(rows, at, ids, true)), multiset(Due(rows, at, ids, false));
    forall id ensures (full + rest)[id] == multiset(ids)[id] {
      DueCount(rows, at, ids, id);
    }
  }

  /** Every token is on the two lists together as often as in the batch. */
  lemma {:induction false} DueCount(rows: Rows, at: int, ids: seq<RowId>, id: RowId)
    requires forall i :: 0 <= i < |ids| ==> ids[i] in rows
    ensures multiset(Due(rows, at, ids, true))[id] + multiset(Due(rows, at, ids, false))[id] == multiset(ids)[id]
  {
    if ids != [] {
      var n := |ids| - 1;
      assert multiset(ids)[id] == multiset(ids[..n])[id] + if id == ids[n] then 1 else 0 by {
        assert ids == ids[..n] + [ids[n]];
        LastCount(ids[..n], ids[n], id);
      }
      DueCount(rows, at, ids[..n], id);
      Balance(rows, at, ids, id);
    }
  }

  lemma Balance(rows: Rows, at: int, ids: seq<RowId>, id: RowId)
    requires ids != [] && forall i :: 0 <= i < |ids| ==> ids[i] in rows
    ensures var n := |ids| - 1;
            multiset(Due(rows, at, ids, true))[id] + multiset(Due(rows, at, ids, false))[id] ==
            multiset(Due(rows, at, ids[..n], true))[id] + multiset(Due(rows, at, ids[..n], false))[id]
            + if id == ids[n] then 1 else 0
  {
    DueGrows(rows, at, ids, true, id);
    DueGrows(rows, at, ids, false, id);
  }

  lemma DueGrows(rows: Rows, at: int, ids: seq<RowId>, full: bool, id: RowId)
    requires ids != [] && forall i :: 0 <= i < |ids| ==> ids[i] in rows
    ensures var n := |ids| - 1;
            multiset(Due(rows, at, ids, full))[id] ==
            multiset(Due(rows, at, ids[..n], full))[id]
            + if NeedsFull(rows[ids[n]], at) == full && id == ids[n] then 1 else 0
  {
    var n := |ids| - 1;
    var front := Due(rows, at, ids[..n], full);
    LastCount(front, ids[n], id);
    assert Due(rows, at, ids, full) == front + if NeedsFull(rows[ids[n]], at) == full then [ids[n]] else [];
    assert front + [] == front;
  }

  lemma LastCount(s: seq<RowId>, last: RowId, id: RowId)
    ensures multiset(s + [last])[id] == multiset(s)[id] + if id == last then 1 else 0
  {
  }

  lemma {:induction false} DueOnly(rows: Rows, at: int, ids: seq<RowId>, full: bool, id: RowId)
    requires forall i :: 0 <= i < |ids| ==> ids[i] in rows
    ensures id in Due(rows, at, ids, full) <==> id in ids && NeedsFull(rows[id], at) == full
  {
    if ids != [] {
      var n := |ids| - 1;
      DueOnly(rows, at, ids[..n], full, id);
      assert ids == ids[..n] + [ids[n]];
    }
  }

  /** A claimed batch, whatever task ids it is given, is a claim step of the state machine. */
  lemma BatchIsClaim(w: World, at: int, limit: nat, locked: set<RowId>, ids: seq<RowId>, tasks: map<TaskId, RowId>)
    requires at <= w.now && IsBatch(w.rows, at, limit, locked, ids)
    requires |tasks| == |ids| && tasks.Values == (set id | id in ids)
    requires forall t :: t in tasks ==> t !in w.tasks
    requires forall t, u :: t in tasks && u in tasks && t != u ==> tasks[t] != tasks[u]
    ensures ClaimOk(w, at, limit, tasks)
    ensures forall w' :: ClaimStep(w, w', at, limit, tasks) ==>
              w'.rows == Stamped(w.rows, ids, at + REFRESH_LEASE_TTL_SECONDS)
    ensures forall w', t :: ClaimStep(w, w', at, limit, tasks) && t in tasks ==>
              && t in w'.tasks && w'.tasks[t].id == tasks[t] && w'.tasks[t].pc == Queued
              && w'.tasks[t].lease == at + 300
              && (w'.tasks[t].kind == FullRefresh <==> tasks[t] in Due(w.rows, at, ids, true))
              && (w'.tasks[t].kind == ApRetry <==> tasks[t] in Due(w.rows, at, ids, false))
  {
    forall t | t in tasks
      ensures tasks[t] in ids && (tasks[t] in Due(w.rows, at, ids, true) <==> NeedsFull(w.rows[tasks[t]], at))
      ensures tasks[t] in Due(w.rows, at, ids, false) <==> !NeedsFull(w.rows[tasks[t]], at)
    {
      assert tasks[t] in tasks.Values;
      DueOnly(w.rows, at, ids, true, tasks[t]);
      DueOnly(w.rows, at, ids, false, tasks[t]);
    }
    forall t | t in tasks ensures tasks[t] in w.rows && Claimable(w.rows[tasks[t]], at) {
      assert tasks[t] in tasks.Values;
    }
  }
}
