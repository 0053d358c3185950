/**
 The built document read back against what was asked for: every step carries exactly what its
 specification gives, or the default where it gives nothing, at every depth.
 */
module FlowReadBack {
  import opened Wrappers
  import opened FlowTree
  import opened FlowCompiler
  import opened FlowWalkers
  import opened FlowSplice

  /** The text given, or the default. */
  predicate Shows(text: string, given: Option<string>, default: string) {
    if given.Some? then text == given.value else text == default
  }

  predicate ConditionShows(c: Cond, s: CondSpec) {
    && c.operator == s.operator && c.first == s.first
    && (if s.second == "" then c.second.None? else c.second == Some(s.second))
    && (if s.operator == "TEXT_CONTAINS" then c.caseSensitive == Some(false) else c.caseSensitive.None?)
  }

  predicate BranchShows(d: BranchDef, b: BranchSpec) {
    if b.fallback then d.Fallback? && Shows(d.name, b.name, "Otherwise")
    else
      && d.Condition? && Shows(d.name, b.name, "Branch") && |d.groups| == |b.conditions|
      && forall i :: 0 <= i < |d.groups| ==>
           && |d.groups[i]| == |b.conditions[i]|
           && forall j :: 0 <= j < |d.groups[i]| ==> ConditionShows(d.groups[i][j], b.conditions[i][j])
  }

  predicate CodeShows(n: Node, code: Option<string>, input: seq<Entry>) {
    && n.ty == Code && n.children == [] && n.loop.None?
    && Shows(n.settings.sourceCode, code, "export const code = async (inputs) => { return inputs; };")
    && n.settings.input == Dict(if input != [] then input else [Entry("data", Text("{{trigger['body']}}"))])
  }

  predicate PieceShows(n: Node, p: ResolvedPiece) {
    && n.ty == Piece && n.children == [] && n.loop.None?
    && n.settings.pieceName == p.pieceName && n.settings.pieceVersion == p.pieceVersion
    && n.settings.actionName == p.actionName && n.settings.triggerName == "" && n.settings.input == Dict(p.input)
  }

  /** One step and everything nested in it. */
  ghost predicate StepCarries(n: Node, s: Spec, resolve: Resolver)
    decreases s, 0
  {
    n.valid &&
    match s
    case PieceSpec(r) => r.piece != "" && resolve(r).Ok? && PieceShows(n, resolve(r).value)
    case CodeSpec(code, input) => CodeShows(n, code, input)
    case RouterSpec(bs) =>
      && n.ty == Router && n.loop.None? && |n.children| == |n.settings.branches| == |bs|
      && forall i :: 0 <= i < |bs| ==>
           BranchShows(n.settings.branches[i], bs[i]) && Carries(n.children[i], bs[i].actions, resolve)
    case LoopSpec(items, actions) =>
      && n.ty == LoopOnItems && n.children == [] && Carries(n.loop, actions, resolve)
      && Shows(n.settings.items, items, "{{trigger['body']['items']}}")
    case UnknownSpec(_) => false
  }

  /** A chain: the specified steps one after the other, and no more. */
  ghost predicate Carries(t: Tree, specs: seq<Spec>, resolve: Resolver)
    decreases specs, 1
  {
    if specs == [] then t.None?
    else t.Some? && StepCarries(t.value, specs[0], resolve) && Carries(t.value.next, specs[1..], resolve)
  }

  lemma BranchReadsBack(b: BranchSpec)
    ensures BranchShows(CompileBranch(b), b)
  {
  }

  lemma {:induction false} ChainCarries(specs: seq<Spec>, c: nat, resolve: Resolver)
    requires BuildChain(specs, c, resolve).Ok?
    ensures Carries(BuildChain(specs, c, resolve).value.tree, specs, resolve)
    decreases specs, 1
  {
    if specs != [] {
      var rest := BuildChain(specs[1..], c, resolve).value;
      ChainCarries(specs[1..], c, resolve);
      BuiltStepCarries(specs[0], rest.counter, rest.tree, resolve);
    }
  }

  lemma {:induction false} BuiltStepCarries(s: Spec, c: nat, next: Tree, resolve: Resolver)
    requires BuildStep(s, c, next, resolve).Ok?
    ensures var t := BuildStep(s, c, next, resolve).value.tree;
            t.Some? && t.value.next == next && StepCarries(t.value, s, resolve)
    decreases s, 0
  {
    if s.RouterSpec? {
      ChildrenCarry(s.branches, c + 1, resolve);
      forall i | 0 <= i < |s.branches| ensures BranchShows(CompileBranches(s.branches)[i], s.branches[i]) {
        BranchReadsBack(s.branches[i]);
      }
    } else if s.LoopSpec? {
      ChainCarries(s.actions, c + 1, resolve);
    }
  }

  lemma {:induction false} ChildrenCarry(bs: seq<BranchSpec>, c: nat, resolve: Resolver)
    requires BuildChildren(bs, c, resolve).Ok?
    ensures var children := BuildChildren(bs, c, resolve).value.children;
            && |children| == |bs|
            && forall i :: 0 <= i < |bs| ==> Carries(children[i], bs[i].actions, resolve)
    decreases bs, 1
  {
    if bs != [] {
      var first := BuildChain(bs[0].actions, c, resolve).value;
      ChainCarries(bs[0].actions, c, resolve);
      ChildrenCarry(bs[1..], first.counter, resolve);
    }
  }

  // ------------------------------------------------------------------
  // The flows of the loop and the router endpoint
  // ------------------------------------------------------------------

  lemma {:induction false} AppendCarries(t: Tree, a: seq<Spec>, tail: Tree, b: seq<Spec>, resolve: Resolver)
    requires Carries(t, a, resolve) && Carries(tail, b, resolve)
    ensures Carries(Append(t, tail), a + b, resolve)
    decreases |a|
  {
    if a == [] {
      assert a + b == b;
    } else {
      AppendCarries(t.value.next, a[1..], tail, b, resolve);
      assert (a + b)[0] == a[0] && (a + b)[1..] == a[1..] + b;
      SameStep(t.value, Append(t.value.next, tail), a[0], resolve);
    }
  }

  /** What a step carries does not depend on its successor. */
  lemma SameStep(n: Node, next: Tree, s: Spec, resolve: Resolver)
    requires StepCarries(n, s, resolve)
    ensures StepCarries(n.(next := next), s, resolve)
  {
  }

  lemma StepThenCarries(n: Node, s: Spec, rest: seq<Spec>, resolve: Resolver)
    requires StepCarries(n, s, resolve) && Carries(n.next, rest, resolve)
    ensures Carries(Some(n), [s] + rest, resolve)
  {
    assert ([s] + rest)[1..] == rest;
  }

  /** The loop endpoint builds what a chain of the steps before, one loop and the steps after would be. */
  lemma LoopFlowCarries(q: LoopRequest, c: nat, resolve: Resolver)
    requires LoopFlow(q, c, resolve).Ok?
    ensures Carries(LoopFlow(q, c, resolve).value, q.before + ([LoopSpec(Some(q.items), q.body)] + q.after), resolve)
  {
    var before := BuildChain(q.before, c, resolve).value;
    var body := BuildChain(q.body, before.counter, resolve).value;
    var after := BuildChain(q.after, body.counter, resolve).value;
    ChainCarries(q.before, c, resolve);
    ChainCarries(q.body, before.counter, resolve);
    ChainCarries(q.after, body.counter, resolve);
    var loop := LoopNode(StepName(after.counter), q.items, body.tree, after.tree);
    assert StepCarries(loop, LoopSpec(Some(q.items), q.body), resolve);
    StepThenCarries(loop, LoopSpec(Some(q.items), q.body), q.after, resolve);
    AppendCarries(before.tree, q.before, Some(loop), [LoopSpec(Some(q.items), q.body)] + q.after, resolve);
  }

  /** And the router endpoint what a router and the steps after would be. */
  lemma RouterFlowCarries(bs: seq<BranchSpec>, after: seq<Spec>, c: nat, resolve: Resolver)
    requires RouterFlow(bs, after, c, resolve).Ok?
    ensures Carries(RouterFlow(bs, after, c, resolve).value, [RouterSpec(bs)] + after, resolve)
  {
    var children := BuildChildren(bs, c, resolve).value;
    var rest := BuildChain(after, children.counter, resolve).value;
    ChildrenCarry(bs, c, resolve);
    ChainCarries(after, children.counter, resolve);
    var router := RouterNode(StepName(rest.counter), CompileBranches(bs), children.children, rest.tree);
    assert StepCarries(router, RouterSpec(bs), resolve) by {
      forall i | 0 <= i < |bs| ensures BranchShows(CompileBranches(bs)[i], bs[i]) { BranchReadsBack(bs[i]); }
    }
    StepThenCarries(router, RouterSpec(bs), after, resolve);
  }

  // ------------------------------------------------------------------
  // What a failed build complains of
  // ------------------------------------------------------------------

  /** Some specification, at any depth, is the cause. */
  ghost predicate Causes(specs: seq<Spec>, e: BuildError, resolve: Resolver)
    decreases specs, 1
  {
    specs != [] && (CausesStep(specs[0], e, resolve) || Causes(specs[1..], e, resolve))
  }

  ghost predicate CausesStep(s: Spec, e: BuildError, resolve: Resolver)
    decreases s, 0
  {
    match s
    case PieceSpec(r) =>
      if r.piece == "" then exists k: nat :: e == PieceRequired(StepName(k))
      else resolve(r).Err? && e == Unresolved(resolve(r).error)
    case CodeSpec(_, _) => false
    case RouterSpec(bs) => exists i :: 0 <= i < |bs| && Causes(bs[i].actions, e, resolve)
    case LoopSpec(_, actions) => Causes(actions, e, resolve)
    case UnknownSpec(t) => e == UnknownType(t)
  }

  lemma {:induction false} ErrorHasCause(specs: seq<Spec>, c: nat, resolve: Resolver)
    requires BuildChain(specs, c, resolve).Err?
    ensures Causes(specs, BuildChain(specs, c, resolve).error, resolve)
    decreases specs, 1
  {
    var rest := BuildChain(specs[1..], c, resolve);
    if rest.Err? {
      ErrorHasCause(specs[1..], c, resolve);
    } else {
      StepErrorHasCause(specs[0], rest.value.counter, rest.value.tree, resolve);
    }
  }

  lemma {:induction false} StepErrorHasCause(s: Spec, c: nat, next: Tree, resolve: Resolver)
    requires BuildStep(s, c, next, resolve).Err?
    ensures CausesStep(s, BuildStep(s, c, next, resolve).error, resolve)
    decreases s, 0
  {
    if s.RouterSpec? {
      var i := ChildErrorHasCause(s.branches, c + 1, resolve);
    } else if s.LoopSpec? {
      ErrorHasCause(s.actions, c + 1, resolve);
    }
  }

  lemma {:induction false} ChildErrorHasCause(bs: seq<BranchSpec>, c: nat, resolve: Resolver) returns (i: nat)
    requires BuildChildren(bs, c, resolve).Err?
    ensures i < |bs| && Causes(bs[i].actions, BuildChildren(bs, c, resolve).error, resolve)
    decreases bs, 1
  {
    var first := BuildChain(bs[0].actions, c, resolve);
    if first.Err? {
      ErrorHasCause(bs[0].actions, c, resolve);
      i := 0;
    } else {
      var k := ChildErrorHasCause(bs[1..], first.value.counter, resolve);
      i := k + 1;
    }
  }

  // ------------------------------------------------------------------
  // The build summary
  // ------------------------------------------------------------------

  /** A row of the summary describes the step of that name. */
  predicate Describes(row: StepInfo, n: Node) {
    row.step == n.name && row.structure == n.ty && row.branchesCount == |n.settings.branches|
  }

  lemma {:induction false} ChainRowFound(specs: seq<Spec>, c: nat, resolve: Resolver, row: StepInfo) returns (p: Path)
    requires BuildChain(specs, c, resolve).Ok? && row in BuildChain(specs, c, resolve).value.info
    ensures var t := Follow(BuildChain(specs, c, resolve).value.tree, p); t.Some? && Describes(row, t.value)
    decreases specs, 1
  {
    var rest := BuildChain(specs[1..], c, resolve).value;
    if row in rest.info {
      var q := ChainRowFound(specs[1..], c, resolve, row);
      BuiltNext(specs[0], rest.counter, rest.tree, resolve);
      p := [NextSeg] + q;
    } else {
      p := StepRowFound(specs[0], rest.counter, rest.tree, resolve, row);
    }
  }

  lemma BuiltNext(s: Spec, c: nat, next: Tree, resolve: Resolver)
    requires BuildStep(s, c, next, resolve).Ok?
    ensures var t := BuildStep(s, c, next, resolve).value.tree; t.Some? && t.value.next == next
  {
  }

  lemma {:induction false} StepRowFound(s: Spec, c: nat, next: Tree, resolve: Resolver, row: StepInfo)
    returns (p: Path)
    requires BuildStep(s, c, next, resolve).Ok? && row in BuildStep(s, c, next, resolve).value.info
    ensures var t := Follow(BuildStep(s, c, next, resolve).value.tree, p); t.Some? && Describes(row, t.value)
    decreases s, 0
  {
    var b := BuildStep(s, c, next, resolve).value;
    if s.RouterSpec? && row != b.info[0] {
      var children := BuildChildren(s.branches, c + 1, resolve).value;
      assert b.info == [b.info[0]] + children.info;
      var k, q := ChildRowFound(s.branches, c + 1, resolve, row);
      p := [ChildSeg(k)] + q;
    } else if s.LoopSpec? && row != b.info[0] {
      var body := BuildChain(s.actions, c + 1, resolve).value;
      assert b.info == [b.info[0]] + body.info;
      var q := ChainRowFound(s.actions, c + 1, resolve, row);
      p := [LoopSeg] + q;
    } else {
      p := [];
    }
  }

  lemma {:induction false} ChildRowFound(bs: seq<BranchSpec>, c: nat, resolve: Resolver, row: StepInfo)
    returns (k: nat, p: Path)
    requires BuildChildren(bs, c, resolve).Ok? && row in BuildChildren(bs, c, resolve).value.info
    ensures var children := BuildChildren(bs, c, resolve).value.children;
            k < |children| && Follow(children[k], p).Some? && Describes(row, Follow(children[k], p).value)
    decreases bs, 1
  {
    var first := BuildChain(bs[0].actions, c, resolve).value;
    if row in first.info {
      k := 0;
      p := ChainRowFound(bs[0].actions, c, resolve, row);
    } else {
      var i;
      i, p := ChildRowFound(bs[1..], first.counter, resolve, row);
      k := i + 1;
    }
  }
}
