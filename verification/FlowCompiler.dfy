/**
 The recursive chain builder: nested step specifications become a linked tree, back to front, with
 one counter shared by every chain of a flow.

 The piece resolver (catalogue look-ups and defaults) is a parameter.
 */
module FlowCompiler {
  import opened Wrappers
  import opened FlowTree

  datatype PieceRequest = PieceRequest(
    piece: string, action: string, input: seq<Entry>, connection: Option<string>, version: Option<string>)

  datatype CondSpec = CondSpec(operator: string, first: string, second: string)

  datatype BranchSpec = BranchSpec(
    name: Option<string>, fallback: bool, conditions: seq<seq<CondSpec>>, actions: seq<Spec>)

  /** Default values of absent fields are filled in by the builder. */
  datatype Spec =
    | PieceSpec(request: PieceRequest)
    | CodeSpec(code: Option<string>, codeInput: seq<Entry>)
    | RouterSpec(branches: seq<BranchSpec>)
    | LoopSpec(items: Option<string>, actions: seq<Spec>)
    | UnknownSpec(typeName: string)

  datatype ResolvedPiece = ResolvedPiece(pieceName: string, pieceVersion: string, actionName: string, input: seq<Entry>)

  datatype BuildError =
    | PieceRequired(step: string)
    | Unresolved(reason: string)
    | UnknownType(typeName: string)

  type Resolver = PieceRequest -> Result<ResolvedPiece, string>

  datatype StepInfo = StepInfo(step: string, structure: StepType, branchesCount: nat)

  datatype Built = Built(tree: Tree, counter: nat, info: seq<StepInfo>)

  datatype BuiltChildren = BuiltChildren(children: seq<Tree>, counter: nat, info: seq<StepInfo>)

  const FIRST_STEP: nat := 1
  const DEFAULT_CODE := "export const code = async (inputs) => { return inputs; };"
  const DEFAULT_CODE_INPUT := [Entry("data", Text("{{trigger['body']}}"))]
  const DEFAULT_ITEMS := "{{trigger['body']['items']}}"

  // ------------------------------------------------------------------
  // Single steps
  // ------------------------------------------------------------------

  function CompileCond(c: CondSpec): Cond {
    Cond(c.operator, c.first, if c.second == "" then None else Some(c.second),
         if c.operator == "TEXT_CONTAINS" then Some(false) else None)
  }

  function CompileGroup(g: seq<CondSpec>): seq<Cond> { seq(|g|, i requires 0 <= i < |g| => CompileCond(g[i])) }

  /** A condition read back from its compiled form. */
  function ReadCond(c: Cond): CondSpec { CondSpec(c.operator, c.first, OrElse(c.second, "")) }

  function OrElse(o: Option<string>, default: string): string { if o.Some? then o.value else default }

  function CompileBranch(b: BranchSpec): BranchDef {
    if b.fallback then Fallback(OrElse(b.name, "Otherwise"))
    else Condition(OrElse(b.name, "Branch"),
                   seq(|b.conditions|, i requires 0 <= i < |b.conditions| => CompileGroup(b.conditions[i])))
  }

  /** No condition is lost or altered, and only text containment is marked case-insensitive. */
  lemma ConditionsReadBack(b: BranchSpec, i: nat, j: nat)
    ensures CompileBranch(b).Fallback? <==> b.fallback
    ensures !b.fallback && i < |b.conditions| && j < |b.conditions[i]| ==>
              && |CompileBranch(b).groups| == |b.conditions| && |CompileBranch(b).groups[i]| == |b.conditions[i]|
              && var c := CompileBranch(b).groups[i][j];
                 && ReadCond(c) == b.conditions[i][j]
                 && (c.caseSensitive == Some(false) <==> c.operator == "TEXT_CONTAINS")
                 && c.caseSensitive != Some(true)
  {
  }

  function CompileBranches(bs: seq<BranchSpec>): seq<BranchDef> {
    seq(|bs|, i requires 0 <= i < |bs| => CompileBranch(bs[i]))
  }

  function PieceSettings(p: ResolvedPiece): Settings {
    NoSettings.(pieceName := p.pieceName, pieceVersion := p.pieceVersion,
                actionName := p.actionName, input := Dict(p.input))
  }

  function CodeOf(s: Spec): string
    requires s.CodeSpec?
  {
    OrElse(s.code, DEFAULT_CODE)
  }

  function CodeInputOf(s: Spec): Val
    requires s.CodeSpec?
  {
    Dict(if s.codeInput == [] then DEFAULT_CODE_INPUT else s.codeInput)
  }

  function ItemsOf(s: Spec): string
    requires s.LoopSpec?
  {
    OrElse(s.items, DEFAULT_ITEMS)
  }

  function PieceNode(name: string, p: ResolvedPiece, next: Tree): Node {
    Node(name, Piece, true, PieceSettings(p), next, [], None)
  }

  function CodeNode(name: string, s: Spec, next: Tree): Node
    requires s.CodeSpec?
  {
    Node(name, Code, true, NoSettings.(input := CodeInputOf(s), sourceCode := CodeOf(s)), next, [], None)
  }

  function RouterNode(name: string, defs: seq<BranchDef>, children: seq<Tree>, next: Tree): Node {
    Node(name, Router, true, NoSettings.(branches := defs), next, children, None)
  }

  function LoopNode(name: string, items: string, body: Tree, next: Tree): Node {
    Node(name, LoopOnItems, true, NoSettings.(items := items), next, [], body)
  }

  // ------------------------------------------------------------------
  // Steps and chains
  // ------------------------------------------------------------------

  function BuildStep(s: Spec, c: nat, next: Tree, resolve: Resolver): Result<Built, BuildError>
    decreases s, 0
  {
    var name := StepName(c);
    match s
    case PieceSpec(r) =>
      if r.piece == "" then Err(PieceRequired(name))
      else (match resolve(r)
            case Err(e) => Err(Unresolved(e))
            case Ok(p) => Ok(Built(Some(PieceNode(name, p, next)), c + 1, [StepInfo(name, Piece, 0)])))
    case CodeSpec(_, _) => Ok(Built(Some(CodeNode(name, s, next)), c + 1, [StepInfo(name, Code, 0)]))
    case RouterSpec(bs) =>
      (match BuildChildren(bs, c + 1, resolve)
       case Err(e) => Err(e)
       case Ok(b) => Ok(Built(Some(RouterNode(name, CompileBranches(bs), b.children, next)), b.counter,
                              [StepInfo(name, Router, |bs|)] + b.info)))
    case LoopSpec(_, actions) =>
      (match BuildChain(actions, c + 1, resolve)
       case Err(e) => Err(e)
       case Ok(b) => Ok(Built(Some(LoopNode(name, ItemsOf(s), b.tree, next)), b.counter,
                              [StepInfo(name, LoopOnItems, 0)] + b.info)))
    case UnknownSpec(t) => Err(UnknownType(t))
  }

  /** One child per branch, in order. */
  function BuildChildren(bs: seq<BranchSpec>, c: nat, resolve: Resolver): Result<BuiltChildren, BuildError>
    decreases bs, 1
  {
    if bs == [] then Ok(BuiltChildren([], c, []))
    else
      match BuildChain(bs[0].actions, c, resolve)
      case Err(e) => Err(e)
      case Ok(first) =>
        match BuildChildren(bs[1..], first.counter, resolve)
        case Err(e) => Err(e)
        case Ok(rest) => Ok(BuiltChildren([first.tree] + rest.children, rest.counter, first.info + rest.info))
  }

  /** Last specification first, so that each step is built with its successor in hand. */
  function BuildChain(specs: seq<Spec>, c: nat, resolve: Resolver): Result<Built, BuildError>
    decreases specs, 1
  {
    if specs == [] then Ok(Built(None, c, []))
    else
      match BuildChain(specs[1..], c, resolve)
      case Err(e) => Err(e)
      case Ok(rest) =>
        match BuildStep(specs[0], rest.counter, rest.tree, resolve)
        case Err(e) => Err(e)
        case Ok(b) => Ok(Built(b.tree, b.counter, rest.info + b.info))
  }

  function Size(s: Spec): nat
    decreases s, 0
  {
    match s
    case RouterSpec(bs) => 1 + SizeOfBranches(bs)
    case LoopSpec(_, actions) => 1 + SizeOf(actions)
    case _ => 1
  }

  function SizeOfBranches(bs: seq<BranchSpec>): nat
    decreases bs, 1
  {
    if bs == [] then 0 else SizeOf(bs[0].actions) + SizeOfBranches(bs[1..])
  }

  /** How many steps the specifications describe, nested ones included. */
  function SizeOf(specs: seq<Spec>): nat
    decreases specs, 1
  {
    if specs == [] then 0 else Size(specs[0]) + SizeOf(specs[1..])
  }

  // ------------------------------------------------------------------
  // What the specifications mean: in order, no tree and no numbers
  // ------------------------------------------------------------------

  function RunSpecs(specs: seq<Spec>, resolve: Resolver, o: Oracle, h: History): History
    decreases specs, 1
  {
    if specs == [] then h else RunSpecs(specs[1..], resolve, o, RunSpec(specs[0], resolve, o, h))
  }

  function RunSpec(s: Spec, resolve: Resolver, o: Oracle, h: History): History
    decreases s, 0
  {
    match s
    case PieceSpec(r) =>
      (match resolve(r)
       case Err(_) => h
       case Ok(p) => h + [DidPiece(p.pieceName, p.pieceVersion, p.actionName, Dict(p.input))])
    case CodeSpec(_, _) => h + [RanCode(CodeOf(s), CodeInputOf(s))]
    case RouterSpec(bs) =>
      (match o.select(h, CompileBranches(bs))
       case None => h
       case Some(i) => if i < |bs| then RunSpecs(bs[i].actions, resolve, o, h + [TookBranch(i)]) else h)
    case LoopSpec(_, actions) => RunLoop(actions, resolve, o, o.items(h, ItemsOf(s)), 0, h)
    case UnknownSpec(_) => h
  }

  function RunLoop(body: seq<Spec>, resolve: Resolver, o: Oracle, n: nat, k: nat, h: History): History
    requires k <= n
    decreases body, 2 + n - k
  {
    if k == n then h
    else RunLoop(body, resolve, o, n, k + 1, RunSpecs(body, resolve, o, h + [TookItem(k)]))
  }

  // ------------------------------------------------------------------
  // Meaning is preserved
  // ------------------------------------------------------------------

  /** A compiled chain does what its specifications say, for every oracle and history. */
  lemma {:induction false} ChainMeaning(specs: seq<Spec>, c: nat, resolve: Resolver, o: Oracle, h: History)
    requires BuildChain(specs, c, resolve).Ok?
    ensures RunTree(BuildChain(specs, c, resolve).value.tree, o, h) == RunSpecs(specs, resolve, o, h)
    decreases specs, 1
  {
    if specs != [] {
      var rest := BuildChain(specs[1..], c, resolve).value;
      StepMeaning(specs[0], rest.counter, rest.tree, resolve, o, h);
      ChainMeaning(specs[1..], c, resolve, o, RunSpec(specs[0], resolve, o, h));
    }
  }

  /** A compiled step does what its specification says and goes on with its successor. */
  lemma {:induction false} StepMeaning(s: Spec, c: nat, next: Tree, resolve: Resolver, o: Oracle, h: History)
    requires BuildStep(s, c, next, resolve).Ok?
    ensures var t := BuildStep(s, c, next, resolve).value.tree;
            t.Some? && t.value.next == next
            && RunNode(t.value, o, h) == RunSpec(s, resolve, o, h)
    decreases s, 0
  {
    match s
    case PieceSpec(r) =>
    case CodeSpec(_, _) =>
    case RouterSpec(bs) =>
      ChildrenMeaning(bs, c + 1, resolve, o);
      var choice := o.select(h, CompileBranches(bs));
      if choice.Some? && choice.value < |bs| {
        ChildMeaning(bs, c + 1, resolve, o, choice.value, h + [TookBranch(choice.value)]);
      }
    case LoopSpec(_, actions) =>
      LoopMeaning(actions, c + 1, resolve, o, o.items(h, ItemsOf(s)), 0, h);
  }

  lemma {:induction false} ChildrenMeaning(bs: seq<BranchSpec>, c: nat, resolve: Resolver, o: Oracle)
    requires BuildChildren(bs, c, resolve).Ok?
    ensures |BuildChildren(bs, c, resolve).value.children| == |bs|
    decreases bs, 1
  {
    if bs != [] {
      ChildrenMeaning(bs[1..], BuildChain(bs[0].actions, c, resolve).value.counter, resolve, o);
    }
  }

  lemma {:induction false} ChildMeaning(bs: seq<BranchSpec>, c: nat, resolve: Resolver, o: Oracle, i: nat, h: History)
    requires BuildChildren(bs, c, resolve).Ok?
    requires i < |bs| && |BuildChildren(bs, c, resolve).value.children| == |bs|
    ensures RunTree(BuildChildren(bs, c, resolve).value.children[i], o, h) == RunSpecs(bs[i].actions, resolve, o, h)
    decreases bs, 1
  {
    var first := BuildChain(bs[0].actions, c, resolve).value;
    if i == 0 {
      ChainMeaning(bs[0].actions, c, resolve, o, h);
    } else {
      ChildrenMeaning(bs[1..], first.counter, resolve, o);
      ChildMeaning(bs[1..], first.counter, resolve, o, i - 1, h);
      assert bs[1..][i - 1] == bs[i];
    }
  }

  lemma {:induction false} LoopMeaning(body: seq<Spec>, c: nat, resolve: Resolver,
                                       o: Oracle, n: nat, k: nat, h: History)
    requires BuildChain(body, c, resolve).Ok? && k <= n
    ensures RunItems(BuildChain(body, c, resolve).value.tree, o, n, k, h) == RunLoop(body, resolve, o, n, k, h)
    decreases body, 2 + n - k
  {
    if k < n {
      ChainMeaning(body, c, resolve, o, h + [TookItem(k)]);
      LoopMeaning(body, c, resolve, o, n, k + 1, RunSpecs(body, resolve, o, h + [TookItem(k)]));
    }
  }

  /** A compiled execute-first-match router runs exactly the actions of the matching branch. */
  lemma RouterRunsFirstMatch(bs: seq<BranchSpec>, c: nat, next: Tree, resolve: Resolver, o: Oracle, h: History,
                             holds: seq<seq<Cond>> -> bool, i: nat)
    requires BuildStep(RouterSpec(bs), c, next, resolve).Ok?
    requires o.select(h, CompileBranches(bs)) == FirstMatch(holds, CompileBranches(bs))
    requires IsFirstMatch(holds, CompileBranches(bs), i)
    ensures RunTree(BuildStep(RouterSpec(bs), c, next, resolve).value.tree, o, h) ==
            RunTree(next, o, RunSpecs(bs[i].actions, resolve, o, h + [TookBranch(i)]))
  {
    FirstMatchIs(holds, CompileBranches(bs), i);
    StepMeaning(RouterSpec(bs), c, next, resolve, o, h);
  }
}
