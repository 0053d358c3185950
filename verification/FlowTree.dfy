/**
 The flow document an import carries: steps linked by their next action, router children and the
 first action of a loop.
 */
module FlowTree {
  import opened Wrappers
  import Decimal

  datatype Val = Null | Bool(b: bool) | Num(n: int) | Text(s: string)
    | List(items: seq<Val>) | Dict(entries: seq<Entry>)

  datatype Entry = Entry(key: string, value: Val)

  datatype StepType = PieceTrigger | Piece | Code | Router | LoopOnItems | Other(name: string)

  /** A condition as cond() emits it: optional parts are left out when they say nothing. */
  datatype Cond = Cond(operator: string, first: string, second: Option<string>, caseSensitive: Option<bool>)

  datatype BranchDef = Condition(name: string, groups: seq<seq<Cond>>) | Fallback(name: string)

  datatype Settings = Settings(
    pieceName: string, pieceVersion: string, actionName: string, triggerName: string,
    input: Val, sourceCode: string, items: string, branches: seq<BranchDef>)

  const NoSettings := Settings("", "", "", "", Dict([]), "", "", [])

  datatype Node = Node(
    name: string, ty: StepType, valid: bool, settings: Settings,
    next: Option<Node>, children: seq<Option<Node>>, loop: Option<Node>)

  type Tree = Option<Node>

  function StepName(n: nat): string { "step_" + Decimal.Digits(n) }

  lemma StepNameInjective(a: nat, b: nat)
    ensures StepName(a) == StepName(b) <==> a == b
  {
    if StepName(a) == StepName(b) {
      assert StepName(a)[5..] == Decimal.Digits(a) && StepName(b)[5..] == Decimal.Digits(b);
      Decimal.DigitsInjective(a, b);
    }
  }

  /** How many steps of a tree, nested ones included, carry a name. */
  function Uses(t: Tree, name: string): nat
    decreases t
  {
    match t
    case None => 0
    case Some(n) =>
      (if n.name == name then 1 else 0) + Uses(n.next, name)
      + UsesInAll(n.children, name) + Uses(n.loop, name)
  }

  function UsesInAll(ts: seq<Tree>, name: string): nat
    decreases ts
  {
    if ts == [] then 0 else Uses(ts[0], name) + UsesInAll(ts[1..], name)
  }

  function Count(t: Tree): nat
    decreases t
  {
    match t
    case None => 0
    case Some(n) => 1 + Count(n.next) + CountAll(n.children) + Count(n.loop)
  }

  function CountAll(ts: seq<Tree>): nat
    decreases ts
  {
    if ts == [] then 0 else Count(ts[0]) + CountAll(ts[1..])
  }

  /** How often a name occurs in the list step_c, …, step_{c+n-1}. */
  function UsesInRange(c: nat, n: nat, name: string): nat
    decreases n
  {
    if n == 0 then 0 else (if name == StepName(c) then 1 else 0) + UsesInRange(c + 1, n - 1, name)
  }

  lemma {:induction false} RangeSplit(c: nat, m: nat, n: nat, name: string)
    ensures UsesInRange(c, m + n, name) == UsesInRange(c, m, name) + UsesInRange(c + m, n, name)
    decreases m
  {
    if m > 0 {
      RangeSplit(c + 1, m - 1, n, name);
    }
  }

  lemma {:induction false} RangeOnce(c: nat, n: nat, name: string)
    ensures UsesInRange(c, n, name) == 1 <==> exists k: nat :: c <= k < c + n && name == StepName(k)
    ensures UsesInRange(c, n, name) <= 1
    decreases n
  {
    if n > 0 {
      RangeOnce(c + 1, n - 1, name);
      if name == StepName(c) {
        forall k: nat | c < k ensures StepName(k) != name { StepNameInjective(c, k); }
      }
    }
  }

  /** The top-level steps in the order they run. */
  function Spine(t: Tree): seq<Node>
    decreases t
  {
    match t
    case None => []
    case Some(n) => [n] + Spine(n.next)
  }

  // ------------------------------------------------------------------
  // What running a tree does
  // ------------------------------------------------------------------

  datatype Event =
    | DidPiece(pieceName: string, pieceVersion: string, actionName: string, input: Val)
    | RanCode(sourceCode: string, codeInput: Val)
    | TookBranch(index: nat)
    | TookItem(item: nat)

  type History = seq<Event>

  /** What the engine decides at run time: which branch a router takes, how many items a loop has. */
  datatype Oracle = Oracle(select: (History, seq<BranchDef>) -> Option<nat>, items: (History, string) -> nat)

  function RunTree(t: Tree, o: Oracle, h: History): History
    decreases t, 1
  {
    match t
    case None => h
    case Some(n) => RunTree(n.next, o, RunNode(n, o, h))
  }

  function RunNode(n: Node, o: Oracle, h: History): History
    decreases n, 0
  {
    match n.ty
    case Piece =>
      h + [DidPiece(n.settings.pieceName, n.settings.pieceVersion, n.settings.actionName, n.settings.input)]
    case Code => h + [RanCode(n.settings.sourceCode, n.settings.input)]
    case Router =>
      (match o.select(h, n.settings.branches)
       case None => h
       case Some(i) => if i < |n.children| then RunTree(n.children[i], o, h + [TookBranch(i)]) else h)
    case LoopOnItems => RunItems(n.loop, o, o.items(h, n.settings.items), 0, h)
    case _ => h
  }

  function RunItems(body: Tree, o: Oracle, n: nat, k: nat, h: History): History
    requires k <= n
    decreases body, 2 + n - k
  {
    if k == n then h else RunItems(body, o, n, k + 1, RunTree(body, o, h + [TookItem(k)]))
  }

  /** Execute-first-match: the first condition that holds, else the first fallback. */
  function FirstMatch(holds: seq<seq<Cond>> -> bool, defs: seq<BranchDef>): Option<nat> {
    match FirstCondition(holds, defs)
    case Some(i) => Some(i)
    case None => FirstFallback(defs)
  }

  function FirstCondition(holds: seq<seq<Cond>> -> bool, defs: seq<BranchDef>): Option<nat> {
    if defs == [] then None
    else if defs[0].Condition? && holds(defs[0].groups) then Some(0)
    else
      match FirstCondition(holds, defs[1..])
      case None => None
      case Some(i) => Some(i + 1)
  }

  function FirstFallback(defs: seq<BranchDef>): Option<nat> {
    if defs == [] then None
    else if defs[0].Fallback? then Some(0)
    else
      match FirstFallback(defs[1..])
      case None => None
      case Some(i) => Some(i + 1)
  }

  /** The branch an execute-first-match router takes. */
  ghost predicate IsFirstMatch(holds: seq<seq<Cond>> -> bool, defs: seq<BranchDef>, i: nat) {
    && i < |defs|
    && if defs[i].Condition? then
         holds(defs[i].groups) && forall j :: 0 <= j < i ==> defs[j].Condition? ==> !holds(defs[j].groups)
       else
         && (forall j :: 0 <= j < |defs| ==> defs[j].Condition? ==> !holds(defs[j].groups))
         && (forall j :: 0 <= j < i ==> defs[j].Condition?)
  }

  lemma {:induction false} FirstConditionIs(holds: seq<seq<Cond>> -> bool, defs: seq<BranchDef>)
    ensures match FirstCondition(holds, defs)
            case Some(i) => i < |defs| && defs[i].Condition? && IsFirstMatch(holds, defs, i)
            case None => forall j :: 0 <= j < |defs| ==> defs[j].Condition? ==> !holds(defs[j].groups)
  {
    if defs != [] {
      FirstConditionIs(holds, defs[1..]);
      assert forall j :: 0 < j < |defs| ==> defs[j] == defs[1..][j - 1];
    }
  }

  lemma {:induction false} FirstFallbackIs(defs: seq<BranchDef>)
    ensures match FirstFallback(defs)
            case Some(i) => i < |defs| && defs[i].Fallback? && forall j :: 0 <= j < i ==> defs[j].Condition?
            case None => forall j :: 0 <= j < |defs| ==> defs[j].Condition?
  {
    if defs != [] {
      FirstFallbackIs(defs[1..]);
      assert forall j :: 0 < j < |defs| ==> defs[j] == defs[1..][j - 1];
    }
  }

  lemma FirstMatchIs(holds: seq<seq<Cond>> -> bool, defs: seq<BranchDef>, i: nat)
    ensures FirstMatch(holds, defs) == Some(i) <==> IsFirstMatch(holds, defs, i)
  {
    FirstConditionIs(holds, defs);
    FirstFallbackIs(defs);
    var m := FirstMatch(holds, defs);
    if IsFirstMatch(holds, defs, i) && m.Some? {
      OneFirstMatch(holds, defs, i, m.value);
    }
  }

  lemma OneFirstMatch(holds: seq<seq<Cond>> -> bool, defs: seq<BranchDef>, i: nat, j: nat)
    requires IsFirstMatch(holds, defs, i) && IsFirstMatch(holds, defs, j)
    ensures i == j
  {
  }
}
