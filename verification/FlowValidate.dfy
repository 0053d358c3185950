/** The pre-flight check of nested step specifications, against what the builder then does. */
module FlowValidate {
  import opened Wrappers
  import opened FlowTree
  import opened FlowCompiler
  import Decimal

  datatype Problem = NoSteps | PieceMissing | ActionMissing | UnknownStepType(typeName: string)

  datatype Complaint = Complaint(path: string, problem: Problem)

  function Indexed(path: string, i: nat): string { path + "[" + Decimal.Digits(i + 1) + "]" }

  function StepLabel(path: string, i: nat): string {
    if path == "steps" then "Step " + Decimal.Digits(i + 1) else Indexed(path, i)
  }

  /** The first complaint in reading order, if any. */
  function CheckSteps(specs: seq<Spec>, path: string, allowEmpty: bool): Option<Complaint>
    decreases specs, 2
  {
    if specs == [] then if allowEmpty then None else Some(Complaint(path, NoSteps))
    else CheckFrom(specs, 0, path)
  }

  function CheckFrom(specs: seq<Spec>, i: nat, path: string): Option<Complaint>
    decreases specs, 1
  {
    if specs == [] then None
    else
      match CheckStep(specs[0], StepLabel(path, i))
      case Some(c) => Some(c)
      case None => CheckFrom(specs[1..], i + 1, path)
  }

  function CheckStep(s: Spec, spot: string): Option<Complaint>
    decreases s, 0
  {
    match s
    case PieceSpec(r) =>
      if r.piece == "" then Some(Complaint(spot, PieceMissing))
      else if r.action == "" then Some(Complaint(spot, ActionMissing))
      else None
    case RouterSpec(bs) => CheckBranches(bs, 0, spot)
    case LoopSpec(_, actions) => CheckSteps(actions, spot + ".loop_actions", true)
    case CodeSpec(_, _) => None
    case UnknownSpec(t) => Some(Complaint(spot, UnknownStepType(t)))
  }

  function CheckBranches(bs: seq<BranchSpec>, j: nat, spot: string): Option<Complaint>
    decreases bs, 1
  {
    if bs == [] then None
    else
      match CheckSteps(bs[0].actions, Indexed(spot + ".branches", j) + ".actions", true)
      case Some(c) => Some(c)
      case None => CheckBranches(bs[1..], j + 1, spot)
  }

  // ------------------------------------------------------------------
  // Requests
  // ------------------------------------------------------------------

  /** What holds of every request in the specifications, at any depth. */
  predicate EachRequest(specs: seq<Spec>, p: PieceRequest -> bool)
    decreases specs, 1
  {
    specs != [] ==> EachRequestOf(specs[0], p) && EachRequest(specs[1..], p)
  }

  predicate EachRequestOf(s: Spec, p: PieceRequest -> bool)
    decreases s, 0
  {
    match s
    case PieceSpec(r) => p(r)
    case RouterSpec(bs) => EachRequestIn(bs, p)
    case LoopSpec(_, actions) => EachRequest(actions, p)
    case _ => true
  }

  predicate EachRequestIn(bs: seq<BranchSpec>, p: PieceRequest -> bool)
    decreases bs, 1
  {
    bs != [] ==> EachRequest(bs[0].actions, p) && EachRequestIn(bs[1..], p)
  }

  function NamesAction(): PieceRequest -> bool { (r: PieceRequest) => r.action != "" }

  function Resolves(resolve: Resolver): PieceRequest -> bool { (r: PieceRequest) => resolve(r).Ok? }

  // ------------------------------------------------------------------
  // The check and the builder, for every resolver
  // ------------------------------------------------------------------

  predicate OnlyUnresolved<T>(r: Result<T, BuildError>) { r.Err? ==> r.error.Unresolved? }

  /**
   For every resolver: what passes the check and resolves is what builds and names its actions.  So
   the check may be relied on as far as the catalogue agrees, and it refuses nothing else that builds
   than steps without an action and, where steps are required, an empty list.
   */
  lemma {:induction false} PassesIffBuilds(specs: seq<Spec>, path: string, allowEmpty: bool, c: nat, resolve: Resolver)
    ensures CheckSteps(specs, path, allowEmpty).None? && EachRequest(specs, Resolves(resolve)) <==>
            BuildChain(specs, c, resolve).Ok? && EachRequest(specs, NamesAction()) && (allowEmpty || specs != [])
    decreases specs, 2
  {
    FromPassesIffBuilds(specs, 0, path, c, resolve);
  }

  lemma {:induction false} FromPassesIffBuilds(specs: seq<Spec>, i: nat, path: string, c: nat, resolve: Resolver)
    ensures CheckFrom(specs, i, path).None? && EachRequest(specs, Resolves(resolve)) <==>
            BuildChain(specs, c, resolve).Ok? && EachRequest(specs, NamesAction())
    decreases specs, 1
  {
    if specs != [] {
      FromPassesIffBuilds(specs[1..], i + 1, path, c, resolve);
      var rest := BuildChain(specs[1..], c, resolve);
      if rest.Ok? {
        StepPassesIffBuilds(specs[0], StepLabel(path, i), rest.value.counter, rest.value.tree, resolve);
      }
    }
  }

  lemma {:induction false} StepPassesIffBuilds(s: Spec, spot: string, c: nat, next: Tree, resolve: Resolver)
    ensures CheckStep(s, spot).None? && EachRequestOf(s, Resolves(resolve)) <==>
            BuildStep(s, c, next, resolve).Ok? && EachRequestOf(s, NamesAction())
    decreases s, 0
  {
    if s.RouterSpec? {
      BranchesPassIffBuild(s.branches, 0, spot, c + 1, resolve);
    } else if s.LoopSpec? {
      PassesIffBuilds(s.actions, spot + ".loop_actions", true, c + 1, resolve);
    }
  }

  lemma {:induction false} BranchesPassIffBuild(bs: seq<BranchSpec>, j: nat, spot: string, c: nat, resolve: Resolver)
    ensures CheckBranches(bs, j, spot).None? && EachRequestIn(bs, Resolves(resolve)) <==>
            BuildChildren(bs, c, resolve).Ok? && EachRequestIn(bs, NamesAction())
    decreases bs, 1
  {
    if bs != [] {
      var first := BuildChain(bs[0].actions, c, resolve);
      PassesIffBuilds(bs[0].actions, Indexed(spot + ".branches", j) + ".actions", true, c, resolve);
      if first.Ok? {
        BranchesPassIffBuild(bs[1..], j + 1, spot, first.value.counter, resolve);
      }
    }
  }

  /** For every resolver: after a passing check the only error left is an unresolved request. */
  lemma {:induction false} PassedFailsUnresolved(specs: seq<Spec>, path: string, allowEmpty: bool,
                                                 c: nat, resolve: Resolver)
    requires CheckSteps(specs, path, allowEmpty).None?
    ensures OnlyUnresolved(BuildChain(specs, c, resolve))
    decreases specs, 2
  {
    FromFailsUnresolved(specs, 0, path, c, resolve);
  }

  lemma {:induction false} FromFailsUnresolved(specs: seq<Spec>, i: nat, path: string, c: nat, resolve: Resolver)
    requires CheckFrom(specs, i, path).None?
    ensures OnlyUnresolved(BuildChain(specs, c, resolve))
    decreases specs, 1
  {
    if specs != [] {
      FromFailsUnresolved(specs[1..], i + 1, path, c, resolve);
      var rest := BuildChain(specs[1..], c, resolve);
      if rest.Ok? {
        StepFailsUnresolved(specs[0], StepLabel(path, i), rest.value.counter, rest.value.tree, resolve);
      }
    }
  }

  lemma {:induction false} StepFailsUnresolved(s: Spec, spot: string, c: nat, next: Tree, resolve: Resolver)
    requires CheckStep(s, spot).None?
    ensures OnlyUnresolved(BuildStep(s, c, next, resolve))
    decreases s, 0
  {
    if s.RouterSpec? {
      BranchesFailUnresolved(s.branches, 0, spot, c + 1, resolve);
    } else if s.LoopSpec? {
      PassedFailsUnresolved(s.actions, spot + ".loop_actions", true, c + 1, resolve);
    }
  }

  lemma {:induction false} BranchesFailUnresolved(bs: seq<BranchSpec>, j: nat, spot: string, c: nat, resolve: Resolver)
    requires CheckBranches(bs, j, spot).None?
    ensures OnlyUnresolved(BuildChildren(bs, c, resolve))
    decreases bs, 1
  {
    if bs != [] {
      var first := BuildChain(bs[0].actions, c, resolve);
      PassedFailsUnresolved(bs[0].actions, Indexed(spot + ".branches", j) + ".actions", true, c, resolve);
      if first.Ok? {
        BranchesFailUnresolved(bs[1..], j + 1, spot, first.value.counter, resolve);
      }
    }
  }

  /** A missing piece or an unknown type. */
  predicate Fatal(c: Option<Complaint>) {
    c.Some? && (c.value.problem.PieceMissing? || c.value.problem.UnknownStepType?)
  }

  /** For every resolver: such a complaint is about a list that cannot be built. */
  lemma {:induction false} FatalNeverBuilds(specs: seq<Spec>, path: string, allowEmpty: bool, c: nat, resolve: Resolver)
    requires Fatal(CheckSteps(specs, path, allowEmpty))
    ensures BuildChain(specs, c, resolve).Err?
    decreases specs, 2
  {
    FromNeverBuilds(specs, 0, path, c, resolve);
  }

  lemma {:induction false} FromNeverBuilds(specs: seq<Spec>, i: nat, path: string, c: nat, resolve: Resolver)
    requires Fatal(CheckFrom(specs, i, path))
    ensures BuildChain(specs, c, resolve).Err?
    decreases specs, 1
  {
    var rest := BuildChain(specs[1..], c, resolve);
    if CheckStep(specs[0], StepLabel(path, i)).None? {
      FromNeverBuilds(specs[1..], i + 1, path, c, resolve);
    } else if rest.Ok? {
      StepNeverBuilds(specs[0], StepLabel(path, i), rest.value.counter, rest.value.tree, resolve);
    }
  }

  lemma {:induction false} StepNeverBuilds(s: Spec, spot: string, c: nat, next: Tree, resolve: Resolver)
    requires Fatal(CheckStep(s, spot))
    ensures BuildStep(s, c, next, resolve).Err?
    decreases s, 0
  {
    if s.RouterSpec? {
      BranchesNeverBuild(s.branches, 0, spot, c + 1, resolve);
    } else if s.LoopSpec? {
      FatalNeverBuilds(s.actions, spot + ".loop_actions", true, c + 1, resolve);
    }
  }

  lemma {:induction false} BranchesNeverBuild(bs: seq<BranchSpec>, j: nat, spot: string, c: nat, resolve: Resolver)
    requires Fatal(CheckBranches(bs, j, spot))
    ensures BuildChildren(bs, c, resolve).Err?
    decreases bs, 1
  {
    var path := Indexed(spot + ".branches", j) + ".actions";
    var first := BuildChain(bs[0].actions, c, resolve);
    if CheckSteps(bs[0].actions, path, true).Some? {
      FatalNeverBuilds(bs[0].actions, path, true, c, resolve);
    } else if first.Ok? {
      BranchesNeverBuild(bs[1..], j + 1, spot, first.value.counter, resolve);
    }
  }
}
