/**
 The build pipeline against an arbitrary automation platform: create, stamp, import, read back,
 publish, enable, read back again.

 The platform is nondeterministic.  A call fails without effect or takes effect; what it makes of the
 document, and what happens to the document between calls, is arbitrary.  Only the metadata stamp is
 kept as written, and only the pipeline deletes.
 */
module GoldenBuild {
  import opened Wrappers
  import opened FlowTree
  import opened FlowWalkers
  import opened FlowDiagnosis
  import opened PieceValidator

  datatype Flow = Flow(owner: Option<string>, status: string, trigger: Tree)

  /** Upstream errors arrive as HTTP errors; anything else is a failure of the client itself. */
  datatype ApiError = HttpError | ClientError

  datatype Op = Create | Stamp | Import | Get | Publish | Enable | Delete

  /** One platform call: what was asked, about which flow, and the document a read returned. */
  datatype Call = Call(op: Op, fid: string, ok: bool, reply: Option<Flow>)

  datatype Failure =
    | Invalid(errors: seq<ValidationError>)
    | CallFailed(error: ApiError)
    | StampFailed
    | TriggerEmpty
    | StrippedGraph(expected: nat, actual: nat)
    | InvalidatedSteps(rows: seq<Row>)
    | NotEnabled

  const ENABLED := "ENABLED"

  // ------------------------------------------------------------------
  // What a read-back document must show
  // ------------------------------------------------------------------

  function TriggerType(t: Tree): StepType { if t.None? then Other("UNKNOWN") else t.value.ty }

  function InvalidRows(rows: seq<Row>): seq<Row> {
    if rows == [] then []
    else (if rows[0].valid then [] else [rows[0]]) + InvalidRows(rows[1..])
  }

  /** Not fewer steps than were sent, every step valid, and a real trigger. */
  predicate Intact(flow: Flow, sent: Tree) {
    && |Rows(flow.trigger, 0)| >= |Rows(sent, 0)|
    && (forall row :: row in Rows(flow.trigger, 0) ==> row.valid)
    && TriggerType(flow.trigger) != Other("EMPTY")
  }

  /** In terms of the documents alone, where neither carries stray parts: no step lost and none invalid. */
  lemma IntactIff(flow: Flow, sent: Tree)
    requires NothingStray(flow.trigger) && NothingStray(sent)
    ensures Intact(flow, sent) <==>
            && Count(flow.trigger) >= Count(sent) && EveryStepValid(flow.trigger)
            && (flow.trigger.None? || flow.trigger.value.ty != Other("EMPTY"))
  {
    RowsCount(flow.trigger, 0);
    RowsCount(sent, 0);
    RowsValidIff(flow.trigger);
  }

  /** And whatever the document carries: one invalid step at a position the walk sees is enough. */
  lemma InvalidStepStops(flow: Flow, sent: Tree, p: Path)
    requires Seen(flow.trigger, p) && Follow(flow.trigger, p).Some? && !Follow(flow.trigger, p).value.valid
    ensures !Intact(flow, sent)
  {
    RowsValidIff(flow.trigger);
  }

  lemma {:induction false} NoInvalidRowsIff(rows: seq<Row>)
    ensures InvalidRows(rows) == [] <==> forall row :: row in rows ==> row.valid
  {
    if rows != [] {
      NoInvalidRowsIff(rows[1..]);
      assert rows == [rows[0]] + rows[1..];
    }
  }

  /** The rows reported are the invalid ones, each as often as it is there. */
  lemma {:induction false} InvalidRowsAre(rows: seq<Row>, row: Row)
    ensures multiset(InvalidRows(rows))[row] == if row.valid then 0 else multiset(rows)[row]
  {
    if rows != [] {
      InvalidRowsAre(rows[1..], row);
      assert rows == [rows[0]] + rows[1..];
      assert multiset(rows) == multiset{rows[0]} + multiset(rows[1..]);
    }
  }

  // The calls of one build, in the only orders that are allowed; all concern the flow it created.

  ghost predicate BuildCalls(cs: seq<Call>, sent: Tree) {
    cs != [] ==> cs[0].op == Create && if cs[0].ok then CallsAfter(Created, cs[1..], cs[0].fid, sent) else |cs| == 1
  }

  datatype Stage = Created | Stamped | Imported

  /**
   A stamp that fails is followed by a deletion and nothing else, an import that fails by nothing.  A
   document that was read back intact is published; any other real one is deleted.
   */
  ghost predicate CallsAfter(stage: Stage, cs: seq<Call>, fid: string, sent: Tree)
    decreases |cs|
  {
    cs != [] && cs[0].fid == fid &&
    match stage
    case Created =>
      cs[0].op == Stamp && if cs[0].ok then CallsAfter(Stamped, cs[1..], fid, sent) else OnlyDelete(cs[1..], fid)
    case Stamped =>
      cs[0].op == Import && if cs[0].ok then CallsAfter(Imported, cs[1..], fid, sent) else |cs| == 1
    case Imported =>
      cs[0].op == Get &&
      if !cs[0].ok || cs[0].reply.None? || TriggerType(cs[0].reply.value.trigger) == Other("EMPTY") then |cs| == 1
      else if Intact(cs[0].reply.value, sent) then Publishing(cs[1..], fid)
      else OnlyDelete(cs[1..], fid)
  }

  ghost predicate Publishing(cs: seq<Call>, fid: string) {
    cs != [] && cs[0].op == Publish && PublishCalls(cs, fid)
  }

  ghost predicate PublishCalls(cs: seq<Call>, fid: string) {
    forall i :: 0 <= i < |cs| ==> cs[i].op in {Publish, Enable, Get} && cs[i].fid == fid
  }

  ghost predicate OnlyDelete(cs: seq<Call>, fid: string) { |cs| == 1 && cs[0].op == Delete && cs[0].fid == fid }

  /** Whatever is published or enabled was stamped, imported and read back intact first. */
  lemma VerifiedBeforePublished(cs: seq<Call>, sent: Tree, i: nat)
    requires BuildCalls(cs, sent) && i < |cs| && cs[i].op in {Publish, Enable}
    ensures i > 3
    ensures cs[0].op == Create && cs[1].op == Stamp && cs[1].ok && cs[2].op == Import && cs[2].ok
    ensures cs[3].op == Get && cs[3].ok && cs[3].reply.Some? && Intact(cs[3].reply.value, sent)
    ensures cs[1].fid == cs[2].fid == cs[3].fid == cs[i].fid == cs[0].fid
  {
    assert cs[0].ok && CallsAfter(Created, cs[1..], cs[0].fid, sent);
    assert cs[1..][1..] == cs[2..];
    assert cs[1].ok && CallsAfter(Stamped, cs[2..], cs[0].fid, sent);
    assert cs[2..][1..] == cs[3..];
    assert cs[2].ok && CallsAfter(Imported, cs[3..], cs[0].fid, sent);
    assert cs[3..][1..] == cs[4..];
    if i > 3 { assert cs[4..][i - 4] == cs[i]; }
  }

  ghost predicate ReadIntact(c: Call, sent: Tree) {
    c.op == Get && c.ok && c.reply.Some? && Intact(c.reply.value, sent)
  }

  /** What the gate finds wrong with a document that was read back. */
  ghost predicate Finds(flow: Flow, sent: Tree, f: Failure) {
    match f
    case StrippedGraph(expected, actual) =>
      expected == |Rows(sent, 0)| && actual == |Rows(flow.trigger, 0)| && actual < expected
    case InvalidatedSteps(rows) =>
      rows != [] && |Rows(flow.trigger, 0)| >= |Rows(sent, 0)| && rows == InvalidRows(Rows(flow.trigger, 0))
    case _ => false
  }

  /** Each failure is reported for what the last calls of the build show. */
  ghost predicate Explains(f: Failure, made: seq<Call>, sent: Tree) {
    && made != []
    && var last := made[|made| - 1];
       match f
       case Invalid(_) => false
       case CallFailed(_) => !last.ok && last.op in {Create, Import, Get, Publish, Enable}
       case StampFailed => |made| > 1 && last.op == Delete && made[|made| - 2].op == Stamp && !made[|made| - 2].ok
       case TriggerEmpty => ShowsFlow(last) && TriggerType(last.reply.value.trigger) == Other("EMPTY")
       case NotEnabled => ShowsFlow(last) && last.reply.value.status != "ENABLED"
       case _ =>
         && |made| > 1 && last.op == Delete && ShowsFlow(made[|made| - 2])
         && Finds(made[|made| - 2].reply.value, sent, f)
  }

  ghost predicate ShowsFlow(c: Call) { c.op == Get && c.ok && c.reply.Some? }

  lemma ExplainsBehind(f: Failure, front: seq<Call>, made: seq<Call>, sent: Tree)
    requires Explains(f, made, sent)
    ensures Explains(f, front + made, sent)
  {
  }

  /** How often enabling was tried. */
  function Enables(cs: seq<Call>): nat {
    if cs == [] then 0 else Enables(cs[..|cs| - 1]) + if cs[|cs| - 1].op == Enable then 1 else 0
  }

  lemma {:induction false} EnablesConcat(a: seq<Call>, b: seq<Call>)
    ensures Enables(a + b) == Enables(a) + Enables(b)
  {
    if b == [] {
      assert a + b == a;
    } else {
      EnablesConcat(a, b[..|b| - 1]);
      assert (a + b)[..|a + b| - 1] == a + b[..|b| - 1];
    }
  }

  lemma {:induction false} NoneEnable(cs: seq<Call>)
    requires forall c :: c in cs ==> c.op != Enable
    ensures Enables(cs) == 0
  {
    if cs != [] { NoneEnable(cs[..|cs| - 1]); }
  }

  ghost predicate ShowsEnabled(c: Call) { c.op == Get && c.ok && c.reply.Some? && c.reply.value.status == "ENABLED" }

  // ------------------------------------------------------------------
  // The platform
  // ------------------------------------------------------------------

  class Platform {
    var flows: map<string, Flow>
    var calls: seq<Call>

    /** All flows but this one are as they were. */
    twostate predicate OthersSame(fid: string)
      reads this
    {
      flows - {fid} == old(flows) - {fid}
    }

    /** This flow is still there, or still absent, and its owner has not changed. */
    twostate predicate OwnerSame(fid: string)
      reads this
    {
      (fid in flows <==> fid in old(flows)) && (fid in flows ==> flows[fid].owner == old(flows)[fid].owner)
    }

    /** Anything but the stamp may change at any time. */
    method Drift(fid: string)
      modifies this`flows
      ensures OthersSame(fid) && OwnerSame(fid)
    {
      var status: string := *;
      var trigger: Tree := *;
      if fid in flows {
        flows := flows[fid := flows[fid].(status := status, trigger := trigger)];
      }
    }

    method CreateFlow() returns (r: Result<string, ApiError>)
      modifies this
      ensures r.Ok? ==> r.value !in old(flows) && r.value in flows && flows[r.value].owner.None? && OthersSame(r.value)
      ensures r.Err? ==> flows == old(flows)
      ensures calls == old(calls) + [Call(Create, if r.Ok? then r.value else "", r.Ok?, None)]
    {
      var fails: bool := *;
      var error: ApiError := *;
      var fid: string := *;
      var status: string := *;
      // A platform that would hand out an id twice is one that fails here.
      if fails || fid in flows {
        calls := calls + [Call(Create, "", false, None)];
        return Err(error);
      }
      flows := flows[fid := Flow(None, status, None)];
      calls := calls + [Call(Create, fid, true, None)];
      return Ok(fid);
    }

    method UpdateMetadata(fid: string, tenant: string) returns (r: Result<(), ApiError>)
      modifies this
      ensures r.Ok? ==> fid in flows && flows[fid].owner == Some(tenant) && OthersSame(fid)
      ensures r.Err? ==> OthersSame(fid) && OwnerSame(fid)
      ensures calls == old(calls) + [Call(Stamp, fid, r.Ok?, None)]
    {
      Drift(fid);
      var fails: bool := *;
      var error: ApiError := *;
      r := Err(error);
      if !fails && fid in flows {
        flows := flows[fid := flows[fid].(owner := Some(tenant))];
        r := Ok(());
      }
      calls := calls + [Call(Stamp, fid, r.Ok?, None)];
    }

    /** Import, publish and enable: whatever they do to the document is drift. */
    method Operate(op: Op, fid: string) returns (r: Result<(), ApiError>)
      modifies this
      ensures OthersSame(fid) && OwnerSame(fid)
      ensures calls == old(calls) + [Call(op, fid, r.Ok?, None)]
    {
      Drift(fid);
      var fails: bool := *;
      var error: ApiError := *;
      r := if fails || fid !in flows then Err(error) else Ok(());
      calls := calls + [Call(op, fid, r.Ok?, None)];
    }

    method GetFlow(fid: string) returns (r: Result<Flow, ApiError>)
      modifies this
      ensures OthersSame(fid) && OwnerSame(fid)
      ensures r.Ok? ==> fid in flows && r.value == flows[fid]
      ensures calls == old(calls) + [Call(Get, fid, r.Ok?, if r.Ok? then Some(r.value) else None)]
    {
      Drift(fid);
      var fails: bool := *;
      var error: ApiError := *;
      if fails || fid !in flows {
        calls := calls + [Call(Get, fid, false, None)];
        return Err(error);
      }
      calls := calls + [Call(Get, fid, true, Some(flows[fid]))];
      return Ok(flows[fid]);
    }

    method DeleteFlow(fid: string) returns (ghost call: Call)
      modifies this
      ensures OthersSame(fid)
      ensures fid in flows ==> !call.ok && OwnerSame(fid)
      ensures call.op == Delete && call.fid == fid && calls == old(calls) + [call]
    {
      Drift(fid);
      var fails: bool := *;
      if !fails { flows := flows - {fid}; }
      call := Call(Delete, fid, !fails, None);
      calls := calls + [Call(Delete, fid, !fails, None)];
    }

    /** Reads the flow back; an import that left the trigger empty is an error. */
    method VerifyFlow(fid: string) returns (r: Result<Flow, Failure>, ghost call: Call)
      modifies this
      ensures OthersSame(fid) && OwnerSame(fid)
      ensures calls == old(calls) + [call] && call.op == Get && call.fid == fid
      ensures r.Ok? ==> call.ok && call.reply == Some(r.value)
      ensures call.ok ==> call.reply.Some? && (r.Err? <==> TriggerType(call.reply.value.trigger) == Other("EMPTY"))
      ensures r.Err? ==> if call.ok then r.error == TriggerEmpty else r.error.CallFailed?
    {
      var got := GetFlow(fid);
      call := calls[|calls| - 1];
      if got.Err? { return Err(CallFailed(got.error)), call; }
      if TriggerType(got.value.trigger) == Other("EMPTY") { return Err(TriggerEmpty), call; }
      return Ok(got.value), call;
    }

    /**
     Succeeds exactly on a last read that shows the flow enabled.  A flow that publishing has not enabled
     is enabled by hand, a second time unless the platform refuses the first.
     */
    method PublishAndEnable(fid: string) returns (r: Result<(), Failure>, ghost made: seq<Call>)
      modifies this
      ensures OthersSame(fid) && OwnerSame(fid)
      ensures calls == old(calls) + made && Publishing(made, fid) && |made| <= 6
      ensures forall i :: 0 < i < |made| ==> made[i].op != Publish
      ensures r.Ok? <==> ShowsEnabled(made[|made| - 1])
      ensures r.Err? ==> r.error.CallFailed? || r.error == NotEnabled
      ensures r.Err? && r.error.CallFailed? ==> !made[|made| - 1].ok
      ensures r == Err(NotEnabled) ==> ShowsFlow(made[|made| - 1]) && Enables(made) == 2
      ensures made[0].ok ==> |made| > 1 && made[1].op == Get
      ensures |made| > 2 <==> made[0].ok && made[1].ok && !ShowsEnabled(made[1])
      ensures |made| > 2 ==> made[2].op == Enable
      ensures |made| > 2 && r.Err? && r.error == CallFailed(ClientError) ==> Enables(made) == 2
    {
      var published := Operate(Publish, fid);
      made := [calls[|calls| - 1]];
      if published.Err? { return Err(CallFailed(published.error)), made; }
      var flow := GetFlow(fid);
      made := made + [calls[|calls| - 1]];
      if flow.Err? { return Err(CallFailed(flow.error)), made; }
      if flow.value.status == ENABLED { return Ok(()), made; }
      ghost var tries;
      r, tries := EnableTwice(fid);
      EnablesConcat(made, tries);
      assert Enables(made) == 0 by { NoneEnable(made); }
      made := made + tries;
    }

    /** Enables and reads back, at most twice. */
    method EnableTwice(fid: string) returns (r: Result<(), Failure>, ghost made: seq<Call>)
      modifies this
      ensures OthersSame(fid) && OwnerSame(fid)
      ensures calls == old(calls) + made && PublishCalls(made, fid) && 1 <= |made| <= 4 && made[0].op == Enable
      ensures forall i :: 0 <= i < |made| ==> made[i].op != Publish
      ensures r.Ok? <==> ShowsEnabled(made[|made| - 1])
      ensures r.Err? ==> r.error.CallFailed? || r.error == NotEnabled
      ensures r.Err? && r.error.CallFailed? ==> !made[|made| - 1].ok
      ensures r == Err(NotEnabled) ==> ShowsFlow(made[|made| - 1]) && Enables(made) == 2
      ensures r == Err(CallFailed(ClientError)) ==> Enables(made) == 2
    {
      made := [];
      var attempt := 1;
      while attempt < 3
        invariant 1 <= attempt <= 3 && |made| <= 2 * (attempt - 1) && Enables(made) == attempt - 1
        invariant attempt > 1 ==> made != [] && made[0].op == Enable
        invariant attempt == 3 ==> ShowsFlow(made[|made| - 1]) && !ShowsEnabled(made[|made| - 1])
        invariant OthersSame(fid) && OwnerSame(fid)
        invariant calls == old(calls) + made && PublishCalls(made, fid)
        invariant forall i :: 0 <= i < |made| ==> made[i].op != Publish
      {
        var outcome;
        ghost var more;
        outcome, more := TryEnable(fid);
        EnablesConcat(made, more);
        made := made + more;
        match outcome {
          case Ok(enabled) => if enabled { return Ok(()), made; }
          case Err(e) => if e.HttpError? || attempt == 2 { return Err(CallFailed(e)), made; }
        }
        attempt := attempt + 1;
      }
      return Err(NotEnabled), made;
    }

    method TryEnable(fid: string) returns (r: Result<bool, ApiError>, ghost made: seq<Call>)
      modifies this
      ensures OthersSame(fid) && OwnerSame(fid)
      ensures calls == old(calls) + made && PublishCalls(made, fid) && 1 <= |made| <= 2 && made[0].op == Enable
      ensures Enables(made) == 1 && forall i :: 0 <= i < |made| ==> made[i].op != Publish
      ensures r.Err? ==> !made[|made| - 1].ok
      ensures r.Ok? ==> ShowsFlow(made[|made| - 1]) && (r.value <==> ShowsEnabled(made[|made| - 1]))
    {
      var changed := Operate(Enable, fid);
      made := [calls[|calls| - 1]];
      assert made[..0] == [];
      if changed.Err? { return Err(changed.error), made; }
      var after := GetFlow(fid);
      EnablesConcat(made, [calls[|calls| - 1]]);
      NoneEnable([calls[|calls| - 1]]);
      made := made + [calls[|calls| - 1]];
      if after.Err? { return Err(after.error), made; }
      return Ok(after.value.status == ENABLED), made;
    }
  }

  // ------------------------------------------------------------------
  // The pipeline
  // ------------------------------------------------------------------

  /** The orchestrator's own record of who owns which flow; its database may refuse a write or a read. */
  class FlowRegistry {
    var owners: map<string, string>
    /** Every write that was tried. */
    var tried: seq<(string, string)>

    method Upsert(fid: string, tenant: string)
      modifies this
      ensures owners == old(owners) || owners == old(owners)[fid := tenant]
      ensures tried == old(tried) + [(fid, tenant)]
    {
      tried := tried + [(fid, tenant)];
      var fails: bool := *;
      if !fails { owners := owners[fid := tenant]; }
    }
  }

  /** None when the validator is off: no database, or an empty piece registry. */
  method Preflight(table: Option<PieceTable>, trigger: Tree) returns (errors: seq<ValidationError>)
    ensures errors == if table.Some? && table.value != map[] then AllErrors(table.value, WalkSteps(trigger, [])) else []
  {
    if table.Some? && table.value != map[] {
      errors := ValidateTrigger(table.value, trigger);
    } else {
      errors := [];
    }
  }

  /** The caller's project, or the one configured for the deployment, which may be empty. */
  datatype Project = Project(requested: string, configured: string) {
    function Id(): string { if requested == "" then configured else requested }
  }

  /** Creation onwards is reached only with a document the validator accepts. */
  method GoldenBuild(p: Platform, registry: FlowRegistry, table: Option<PieceTable>, project: Project, sent: Tree)
    returns (r: Result<string, Failure>, ghost made: seq<Call>)
    modifies p, registry
    ensures p.calls == old(p.calls) + made && BuildCalls(made, sent)
    ensures (table.Some? && table.value != map[] && AllErrors(table.value, WalkSteps(sent, [])) != []) <==> made == []
    // No flow created: nothing changed.
    ensures made == [] || !made[0].ok ==> r.Err? && p.flows == old(p.flows)
    // A flow created: only it can have changed; if it is still there it is stamped, unless deleting it failed.
    ensures made != [] && made[0].ok ==>
              made[0].fid !in old(p.flows) && p.OthersSame(made[0].fid) &&
              StampedOrUndeletable(p, made[0].fid, project.Id(), made)
    // Success: stamped, and the last word of the platform is that it is enabled.
    ensures r.Ok? ==> made != [] && made[0].ok && r.value == made[0].fid && Live(p, r.value, project.Id(), made)
    // and before it was published it was read back with no step lost and none invalid.
    ensures r.Ok? ==> |made| > 4 && made[4].op == Publish && ReadIntact(made[3], sent)
    ensures r.Ok? ==> SeenValid(made[3].reply.value.trigger)
    ensures r.Ok? ==> p.flows[r.value].owner ==
                      Some(if project.requested != "" then project.requested else project.configured)
    // Failure: the validator's errors, or what the last calls show.
    ensures made == [] ==> table.Some? && r == Err(Invalid(AllErrors(table.value, WalkSteps(sent, []))))
    ensures made != [] && r.Err? ==> Explains(r.error, made, sent)
    // The registry is told of a success and of nothing else, and may refuse.
    ensures registry.tried == old(registry.tried) + if r.Ok? then [(r.value, project.Id())] else []
    ensures registry.owners == old(registry.owners)
            || (r.Ok? && registry.owners == old(registry.owners)[r.value := project.Id()])
  {
    made := [];
    var errors := Preflight(table, sent);
    if errors != [] { return Err(Invalid(errors)), made; }
    r, made := CreateAndBuild(p, project.Id(), sent);
    if r.Ok? {
      RowsValidIff(made[3].reply.value.trigger);
      registry.Upsert(r.value, project.Id());
    }
  }

  method CreateAndBuild(p: Platform, project: string, sent: Tree)
    returns (r: Result<string, Failure>, ghost made: seq<Call>)
    modifies p
    ensures p.calls == old(p.calls) + made && made != [] && BuildCalls(made, sent)
    ensures !made[0].ok ==> r.Err? && p.flows == old(p.flows)
    ensures made[0].ok ==>
              made[0].fid !in old(p.flows) && p.OthersSame(made[0].fid) &&
              StampedOrUndeletable(p, made[0].fid, project, made)
    ensures r.Ok? ==> made[0].ok && r.value == made[0].fid && Live(p, r.value, project, made)
    ensures r.Ok? ==> |made| > 4 && made[4].op == Publish && ReadIntact(made[3], sent)
    ensures r.Err? ==> Explains(r.error, made, sent)
  {
    ghost var before := p.calls;
    var created := p.CreateFlow();
    ghost var call := Call(Create, if created.Ok? then created.value else "", created.Ok?, None);
    if created.Err? { return Err(CallFailed(created.error)), [call]; }
    var fid := created.value;
    var built;
    ghost var rest;
    built, rest := StampAndImport(p, fid, project, sent);
    CreatedThen(p, call, rest, fid, project, sent);
    made := [call] + rest;
    assert p.calls == before + made by { Assoc(before, [call], rest); }
    if built.Err? { ExplainsBehind(built.error, [call], rest, sent); }
    return if built.Err? then Err(built.error) else Ok(fid), made;
  }

  lemma Assoc(a: seq<Call>, b: seq<Call>, c: seq<Call>)
    ensures a + b + c == a + (b + c)
  {
  }

  /** The creation in front of the calls that followed it. */
  lemma CreatedThen(p: Platform, created: Call, rest: seq<Call>, fid: string, project: string, sent: Tree)
    requires created.op == Create && created.ok && created.fid == fid
    requires rest != [] && CallsAfter(Created, rest, fid, sent)
    ensures var made := [created] + rest;
            && BuildCalls(made, sent)
            && (StampedOrUndeletable(p, fid, project, rest) <==> StampedOrUndeletable(p, fid, project, made))
            && (Live(p, fid, project, rest) <==> Live(p, fid, project, made))
            && (|rest| > 3 ==> |made| > 4 && made[4] == rest[3] && made[3] == rest[2])
  {
    assert ([created] + rest)[1..] == rest;
  }

  /** Owned by the project; or its deletion was the last thing tried, and failed. */
  ghost predicate StampedOrUndeletable(p: Platform, fid: string, project: string, made: seq<Call>)
    reads p
  {
    fid in p.flows ==>
      p.flows[fid].owner == Some(project) || (made != [] && OnlyDelete([made[|made| - 1]], fid) && !made[|made| - 1].ok)
  }

  ghost predicate Live(p: Platform, fid: string, project: string, made: seq<Call>)
    reads p
  {
    && fid in p.flows && p.flows[fid].owner == Some(project) && p.flows[fid].status == "ENABLED"
    && made != [] && made[|made| - 1] == Call(Get, fid, true, Some(p.flows[fid]))
  }

  /** The stamp comes first, so that the flow can be attributed whatever happens next. */
  method StampAndImport(p: Platform, fid: string, project: string, sent: Tree)
    returns (r: Result<(), Failure>, ghost made: seq<Call>)
    modifies p
    ensures p.calls == old(p.calls) + made && CallsAfter(Created, made, fid, sent)
    ensures made != [] && p.OthersSame(fid) && StampedOrUndeletable(p, fid, project, made)
    ensures r.Ok? ==> Live(p, fid, project, made) && |made| > 3 && made[3].op == Publish
                      && ReadIntact(made[2], sent)
    ensures r.Err? ==> Explains(r.error, made, sent)
  {
    var stamped := p.UpdateMetadata(fid, project);
    made := [p.calls[|p.calls| - 1]];
    ghost var rest;
    if stamped.Err? {
      ghost var deleted := p.DeleteFlow(fid);
      made := made + [deleted];
      return Err(StampFailed), made;
    }
    ghost var call, before := made[0], p.calls;
    r, rest := ImportAndPublish(p, fid, sent);
    StampedThen(call, rest, fid, sent, r);
    made := [call] + rest;
    assert before + rest == old(p.calls) + made by { Assoc(old(p.calls), [call], rest); }
  }

  lemma StampedThen(stamp: Call, rest: seq<Call>, fid: string, sent: Tree, r: Result<(), Failure>)
    requires stamp.op == Stamp && stamp.ok && stamp.fid == fid && CallsAfter(Stamped, rest, fid, sent)
    requires r.Err? ==> Explains(r.error, rest, sent)
    ensures var made := [stamp] + rest;
            && CallsAfter(Created, made, fid, sent) && made[|made| - 1] == rest[|rest| - 1]
            && forall i :: 0 <= i < |rest| ==> made[i + 1] == rest[i]
    ensures r.Err? ==> Explains(r.error, [stamp] + rest, sent)
  {
    assert ([stamp] + rest)[1..] == rest;
    if r.Err? { ExplainsBehind(r.error, [stamp], rest, sent); }
  }

  lemma ImportedThen(imported: Call, rest: seq<Call>, fid: string, sent: Tree, r: Result<(), Failure>)
    requires imported.op == Import && imported.ok && imported.fid == fid && CallsAfter(Imported, rest, fid, sent)
    requires r.Err? ==> Explains(r.error, rest, sent)
    ensures var made := [imported] + rest;
            && CallsAfter(Stamped, made, fid, sent) && made[|made| - 1] == rest[|rest| - 1]
            && forall i :: 0 <= i < |rest| ==> made[i + 1] == rest[i]
    ensures r.Err? ==> Explains(r.error, [imported] + rest, sent)
  {
    assert ([imported] + rest)[1..] == rest;
    if r.Err? { ExplainsBehind(r.error, [imported], rest, sent); }
  }

  /** Import, read back, and publish only what came back intact. */
  method ImportAndPublish(p: Platform, fid: string, sent: Tree) returns (r: Result<(), Failure>, ghost made: seq<Call>)
    modifies p
    ensures p.calls == old(p.calls) + made && CallsAfter(Stamped, made, fid, sent)
    ensures made != [] && p.OthersSame(fid)
    ensures fid in p.flows ==> p.OwnerSame(fid)
    ensures r.Ok? ==> fid in p.flows && p.flows[fid].status == ENABLED
                      && made[|made| - 1] == Call(Get, fid, true, Some(p.flows[fid]))
                      && |made| > 2 && made[2].op == Publish && ReadIntact(made[1], sent)
    ensures r.Err? ==> Explains(r.error, made, sent)
  {
    var imported := p.Operate(Import, fid);
    made := [p.calls[|p.calls| - 1]];
    if imported.Err? { return Err(CallFailed(imported.error)), made; }
    ghost var call, before, rest := made[0], p.calls, [];
    r, rest := VerifyAndPublish(p, fid, sent);
    ImportedThen(call, rest, fid, sent, r);
    made := [call] + rest;
    assert before + rest == old(p.calls) + made by { Assoc(old(p.calls), [call], rest); }
  }

  /** Fewer steps than were sent, or any step the platform marked invalid, stops the build. */
  method Gate(flow: Flow, sent: Tree) returns (failure: Option<Failure>)
    requires TriggerType(flow.trigger) != Other("EMPTY")
    ensures failure.None? <==> Intact(flow, sent)
    ensures failure.Some? ==> Finds(flow, sent, failure.value)
  {
    var before, rows := |Rows(sent, 0)|, Rows(flow.trigger, 0);
    if |rows| < before { return Some(StrippedGraph(before, |rows|)); }
    var bad := InvalidRows(rows);
    NoInvalidRowsIff(rows);
    return if bad != [] then Some(InvalidatedSteps(bad)) else None;
  }

  method VerifyAndPublish(p: Platform, fid: string, sent: Tree) returns (r: Result<(), Failure>, ghost made: seq<Call>)
    modifies p
    ensures p.calls == old(p.calls) + made && CallsAfter(Imported, made, fid, sent)
    ensures made != [] && p.OthersSame(fid)
    ensures fid in p.flows ==> p.OwnerSame(fid)
    ensures r.Ok? ==> fid in p.flows && p.flows[fid].status == ENABLED
                      && made[|made| - 1] == Call(Get, fid, true, Some(p.flows[fid]))
                      && |made| > 1 && made[1].op == Publish && ReadIntact(made[0], sent)
    ensures r.Err? ==> Explains(r.error, made, sent)
  {
    var verified;
    ghost var read, rest;
    verified, read := p.VerifyFlow(fid);
    made := [read];
    if verified.Err? { return Err(verified.error), made; }
    var gate := Gate(verified.value, sent);
    if gate.Some? {
      ghost var deleted := p.DeleteFlow(fid);
      RefusedThen(read, deleted, fid, sent, gate.value);
      return Err(gate.value), [read, deleted];
    }
    ghost var before := p.calls;
    r, rest := PublishAndConfirm(p, fid, sent);
    ReadThen(read, rest, fid, sent, r);
    made := [read] + rest;
    assert before + rest == old(p.calls) + made by { Assoc(old(p.calls), [read], rest); }
  }

  lemma ReadThen(read: Call, rest: seq<Call>, fid: string, sent: Tree, r: Result<(), Failure>)
    requires ReadIntact(read, sent) && read.fid == fid && Publishing(rest, fid)
    requires r.Err? ==> Explains(r.error, rest, sent)
    ensures var made := [read] + rest;
            && CallsAfter(Imported, made, fid, sent) && made[|made| - 1] == rest[|rest| - 1] && made[1] == rest[0]
    ensures r.Err? ==> Explains(r.error, [read] + rest, sent)
  {
    assert ([read] + rest)[1..] == rest;
    if r.Err? { ExplainsBehind(r.error, [read], rest, sent); }
  }

  lemma RefusedThen(read: Call, deleted: Call, fid: string, sent: Tree, f: Failure)
    requires ShowsFlow(read) && read.fid == fid && TriggerType(read.reply.value.trigger) != Other("EMPTY")
    requires !Intact(read.reply.value, sent) && Finds(read.reply.value, sent, f)
    requires deleted.op == Delete && deleted.fid == fid
    ensures CallsAfter(Imported, [read, deleted], fid, sent) && Explains(f, [read, deleted], sent)
  {
    assert [read, deleted][1..] == [deleted];
  }

  method PublishAndConfirm(p: Platform, fid: string, ghost sent: Tree)
    returns (r: Result<(), Failure>, ghost made: seq<Call>)
    modifies p
    ensures p.calls == old(p.calls) + made && Publishing(made, fid)
    ensures p.OthersSame(fid) && p.OwnerSame(fid)
    ensures r.Err? ==> Explains(r.error, made, sent)
    ensures r.Ok? ==> fid in p.flows && p.flows[fid].status == ENABLED
                      && made[|made| - 1] == Call(Get, fid, true, Some(p.flows[fid]))
  {
    r, made := p.PublishAndEnable(fid);
    if r.Err? { return; }
    var final := p.GetFlow(fid);
    made := made + [p.calls[|p.calls| - 1]];
    if final.Err? { return Err(CallFailed(final.error)), made; }
    if final.value.status != ENABLED { return Err(NotEnabled), made; }
    return Ok(()), made;
  }

  // ------------------------------------------------------------------
  // Ownership
  // ------------------------------------------------------------------

  /** The registry decides when it can be read and has the flow, else the stamp. */
  method FlowBelongsTo(p: Platform, registry: FlowRegistry, fid: string, tenant: string)
    returns (belongs: bool, ghost registryRead: bool, ghost stampRead: bool)
    modifies p
    ensures p.OthersSame(fid) && p.OwnerSame(fid)
    ensures belongs ==> fid != "" && tenant != "" && ((registryRead && fid in registry.owners) || stampRead)
    ensures fid != "" && tenant != "" && registryRead && fid in registry.owners ==>
              (belongs <==> registry.owners[fid] == tenant)
    ensures fid != "" && tenant != "" && !(registryRead && fid in registry.owners) && stampRead ==>
              (belongs <==> fid in p.flows && p.flows[fid].owner == Some(tenant))
  {
    registryRead, stampRead := true, true;
    if fid == "" || tenant == "" { return false, registryRead, stampRead; }
    var fails: bool := *;
    registryRead := !fails;
    if !fails && fid in registry.owners { return registry.owners[fid] == tenant, registryRead, stampRead; }
    var flow := p.GetFlow(fid);
    if flow.Err? { return false, registryRead, false; }
    return flow.value.owner == Some(tenant), registryRead, true;
  }

  /** Build, then ask who owns the result: the caller's project can be confirmed, no other tenant ever is. */
  method BuildThenAsk(p: Platform, registry: FlowRegistry, table: Option<PieceTable>, project: Project,
                      sent: Tree, tenant: string)
    returns (r: Result<string, Failure>, belongs: bool, ghost answered: bool)
    modifies p, registry
    ensures r.Ok? && r.value !in old(registry.owners) && belongs ==> tenant == project.Id()
    ensures r.Ok? && r.value !in old(registry.owners) && r.value != "" && tenant != "" && answered ==>
              (belongs <==> tenant == project.Id())
  {
    ghost var made;
    r, made := GoldenBuild(p, registry, table, project, sent);
    if r.Err? { return r, false, false; }
    ghost var a, b;
    belongs, a, b := FlowBelongsTo(p, registry, r.value, tenant);
    answered := (a && r.value in registry.owners) || b;
  }
}
