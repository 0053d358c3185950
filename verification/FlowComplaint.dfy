/** Where the pre-flight check finds fault: the complaint is about the first faulty step in reading order. */
module FlowComplaint {
  import opened Wrappers
  import opened FlowCompiler
  import opened FlowValidate
  import Decimal

  /** Into the actions of a router's branch, or of a loop. */
  datatype Turn = IntoBranch(step: nat, branch: nat) | IntoLoop(step: nat)

  /** The list of steps inside, if there is one. */
  function ListAt(specs: seq<Spec>, turn: Turn): Option<seq<Spec>> {
    if turn.step >= |specs| then None
    else
      match turn
      case IntoBranch(i, j) =>
        if specs[i].RouterSpec? && j < |specs[i].branches| then Some(specs[i].branches[j].actions) else None
      case IntoLoop(i) => if specs[i].LoopSpec? then Some(specs[i].actions) else None
  }

  function SpecAt(specs: seq<Spec>, turns: seq<Turn>, step: nat): Option<Spec>
    decreases |turns|
  {
    if turns == [] then if step < |specs| then Some(specs[step]) else None
    else if ListAt(specs, turns[0]).None? then None
    else SpecAt(ListAt(specs, turns[0]).value, turns[1..], step)
  }

  /** Steps and branches are counted from one; the outermost list has a name of its own. */
  function StepText(path: string, step: nat): string {
    if path == "steps" then "Step " + Decimal.Digits(step + 1) else path + "[" + Decimal.Digits(step + 1) + "]"
  }

  function TurnText(path: string, turn: Turn): string {
    match turn
    case IntoBranch(i, j) => StepText(path, i) + ".branches" + "[" + Decimal.Digits(j + 1) + "]" + ".actions"
    case IntoLoop(i) => StepText(path, i) + ".loop_actions"
  }

  function SpotText(path: string, turns: seq<Turn>, step: nat): string
    decreases |turns|
  {
    if turns == [] then StepText(path, step) else SpotText(TurnText(path, turns[0]), turns[1..], step)
  }

  /** What is wrong with a step itself. */
  function Fault(s: Spec): Option<Problem> {
    if s.PieceSpec? && s.request.piece == "" then Some(PieceMissing)
    else if s.PieceSpec? && s.request.action == "" then Some(ActionMissing)
    else if s.UnknownSpec? then Some(UnknownStepType(s.typeName))
    else None
  }

  predicate FaultAt(specs: seq<Spec>, turns: seq<Turn>, step: nat) {
    SpecAt(specs, turns, step).Some? && Fault(SpecAt(specs, turns, step).value).Some?
  }

  /** The step of the list itself that a position is at or inside. */
  function Head(turns: seq<Turn>, step: nat): nat { if turns == [] then step else turns[0].step }

  /** Reading order: step by step, branch by branch, and inside before going on. */
  predicate Earlier(turns: seq<Turn>, step: nat, turns2: seq<Turn>, step2: nat)
    decreases |turns|
  {
    var a, b := Head(turns, step), Head(turns2, step2);
    a < b ||
    (a == b && turns != [] && turns2 != [] &&
     if turns[0] == turns2[0] then Earlier(turns[1..], step, turns2[1..], step2)
     else turns[0].IntoBranch? && turns2[0].IntoBranch? && turns[0].branch < turns2[0].branch)
  }

  ghost predicate FaultFree(specs: seq<Spec>) { forall turns: seq<Turn>, step: nat :: !FaultAt(specs, turns, step) }

  /** The complaint is about this step, and nothing before it is faulty. */
  ghost predicate FirstFault(specs: seq<Spec>, path: string, c: Complaint, turns: seq<Turn>, step: nat) {
    && FaultAt(specs, turns, step) && c.path == SpotText(path, turns, step)
    && Fault(SpecAt(specs, turns, step).value) == Some(c.problem)
    && forall t: seq<Turn>, s: nat :: FaultAt(specs, t, s) ==> !Earlier(t, s, turns, step)
  }

  // ------------------------------------------------------------------
  // One step, against everything inside it
  // ------------------------------------------------------------------

  lemma {:induction false} StepClean(specs: seq<Spec>, i: nat, spot: string)
    requires i < |specs| && CheckStep(specs[i], spot).None?
    ensures forall turns: seq<Turn>, step: nat :: FaultAt(specs, turns, step) ==> Head(turns, step) != i
    decreases specs[i], 0
  {
    forall turns: seq<Turn>, step: nat | FaultAt(specs, turns, step) ensures Head(turns, step) != i {
      if turns != [] && turns[0].step == i {
        var inner := ListAt(specs, turns[0]).value;
        assert FaultAt(inner, turns[1..], step);
        if turns[0].IntoLoop? {
          ListClean(inner, spot + ".loop_actions", true);
        } else {
          BranchClean(specs[i].branches, 0, spot, turns[0].branch);
        }
      }
    }
  }

  lemma {:induction false} BranchClean(bs: seq<BranchSpec>, j: nat, spot: string, k: nat)
    requires CheckBranches(bs, j, spot).None? && j <= k < j + |bs|
    ensures FaultFree(bs[k - j].actions)
    decreases bs, 1
  {
    if k == j {
      ListClean(bs[0].actions, Indexed(spot + ".branches", j) + ".actions", true);
    } else {
      BranchClean(bs[1..], j + 1, spot, k);
    }
  }

  /** A list that passes has no fault at any depth. */
  lemma {:induction false} ListClean(specs: seq<Spec>, path: string, allowEmpty: bool)
    requires CheckSteps(specs, path, allowEmpty).None?
    ensures FaultFree(specs)
    decreases specs, 2
  {
    forall turns: seq<Turn>, step: nat ensures !FaultAt(specs, turns, step) {
      var i := Head(turns, step);
      if i < |specs| {
        StepsChecked(specs, 0, path, i);
        StepClean(specs, i, StepLabel(path, i));
      }
    }
  }

  /** What passes from some step on has each step pass. */
  lemma {:induction false} StepsChecked(specs: seq<Spec>, from: nat, path: string, i: nat)
    requires CheckFrom(specs, from, path).None? && i < |specs|
    ensures PassesAt(specs, from, path, i)
    decreases |specs|
  {
    if i > 0 {
      StepsChecked(specs[1..], from + 1, path, i - 1);
      PassesOn(specs, from, path, i);
    }
  }

  // ------------------------------------------------------------------
  // The complaint
  // ------------------------------------------------------------------

  /**
   A complaint is about an empty list where steps are required, or names the first faulty step in reading
   order, by its position and for what is wrong with it; without a complaint no step is faulty.
   */
  lemma ComplaintIsFirst(specs: seq<Spec>, path: string, allowEmpty: bool)
    ensures match CheckSteps(specs, path, allowEmpty)
            case None => FaultFree(specs) && (allowEmpty || specs != [])
            case Some(c) =>
              if specs == [] then !allowEmpty && c == Complaint(path, NoSteps)
              else exists turns, step :: FirstFault(specs, path, c, turns, step)
  {
    var found := CheckSteps(specs, path, allowEmpty);
    if found.None? {
      ListClean(specs, path, allowEmpty);
    } else if specs != [] {
      var turns, step := ListComplaint(specs, path, allowEmpty);
    }
  }

  lemma {:induction false} ListComplaint(specs: seq<Spec>, path: string, allowEmpty: bool)
    returns (turns: seq<Turn>, step: nat)
    requires specs != [] && CheckSteps(specs, path, allowEmpty).Some?
    ensures FirstFault(specs, path, CheckSteps(specs, path, allowEmpty).value, turns, step)
    decreases specs, 2
  {
    var i := FirstComplaint(specs, 0, path);
    turns, step := StepComplaint(specs, i, path);
    forall t: seq<Turn>, s: nat | FaultAt(specs, t, s) ensures Head(t, s) >= i {
      if Head(t, s) < i {
        assert PassesAt(specs, 0, path, Head(t, s));
        StepClean(specs, Head(t, s), StepLabel(path, Head(t, s)));
      }
    }
  }

  lemma {:induction false} FirstComplaint(specs: seq<Spec>, from: nat, path: string) returns (i: nat)
    requires CheckFrom(specs, from, path).Some?
    ensures i < |specs| && CheckStep(specs[i], StepLabel(path, from + i)) == CheckFrom(specs, from, path)
    ensures forall k :: 0 <= k < i ==> PassesAt(specs, from, path, k)
    decreases |specs|
  {
    if CheckStep(specs[0], StepLabel(path, from)).Some? {
      i := 0;
    } else {
      var k := FirstComplaint(specs[1..], from + 1, path);
      i := k + 1;
      forall m | 0 <= m < i ensures PassesAt(specs, from, path, m) {
        if m > 0 { PassesOn(specs, from, path, m); }
      }
    }
  }

  predicate PassesAt(specs: seq<Spec>, from: nat, path: string, k: nat)
    requires k < |specs|
  {
    CheckStep(specs[k], StepLabel(path, from + k)).None?
  }

  lemma PassesOn(specs: seq<Spec>, from: nat, path: string, k: nat)
    requires 0 < k < |specs| && PassesAt(specs[1..], from + 1, path, k - 1)
    ensures PassesAt(specs, from, path, k)
  {
    assert from + 1 + (k - 1) == from + k;
  }

  /** The first fault at or inside one step. */
  lemma {:induction false} StepComplaint(specs: seq<Spec>, i: nat, path: string) returns (turns: seq<Turn>, step: nat)
    requires i < |specs| && CheckStep(specs[i], StepLabel(path, i)).Some?
    ensures Head(turns, step) == i
    ensures var c := CheckStep(specs[i], StepLabel(path, i)).value;
            && FaultAt(specs, turns, step) && c.path == SpotText(path, turns, step)
            && Fault(SpecAt(specs, turns, step).value) == Some(c.problem)
            && forall t: seq<Turn>, s: nat :: FaultAt(specs, t, s) && Head(t, s) == i ==> !Earlier(t, s, turns, step)
    decreases specs[i], 0
  {
    match specs[i]
    case RouterSpec(bs) =>
      var j := FirstBranch(bs, 0, StepLabel(path, i));
      var at, k := ListComplaint(bs[j].actions, Indexed(StepLabel(path, i) + ".branches", j) + ".actions", true);
      turns, step := [IntoBranch(i, j)] + at, k;
      NestedFirst(specs, turns[0], at, k);
      forall t: seq<Turn>, s: nat | FaultAt(specs, t, s) && Head(t, s) == i ensures !Earlier(t, s, turns, step) {
        if t != [] && t[0].branch < j { assert FaultAt(bs[t[0].branch].actions, t[1..], s); }
      }
    case LoopSpec(_, actions) =>
      var at, k := ListComplaint(actions, StepLabel(path, i) + ".loop_actions", true);
      turns, step := [IntoLoop(i)] + at, k;
      NestedFirst(specs, turns[0], at, k);
    case _ =>
      turns, step := [], i;
  }

  /** The first branch with a complaint; the ones before it are free of faults. */
  lemma {:induction false} FirstBranch(bs: seq<BranchSpec>, j: nat, spot: string) returns (k: nat)
    requires CheckBranches(bs, j, spot).Some?
    ensures k < |bs| && CheckBranches(bs, j, spot) ==
                        CheckSteps(bs[k].actions, Indexed(spot + ".branches", j + k) + ".actions", true)
    ensures forall m :: 0 <= m < k ==> FaultFree(bs[m].actions)
    decreases bs, 1
  {
    var path := Indexed(spot + ".branches", j) + ".actions";
    if CheckSteps(bs[0].actions, path, true).Some? {
      k := 0;
    } else {
      ListClean(bs[0].actions, path, true);
      var l := FirstBranch(bs[1..], j + 1, spot);
      k := l + 1;
      forall m | 0 <= m < k ensures FaultFree(bs[m].actions) {
        if m > 0 { assert FaultFree(bs[1..][m - 1].actions); }
      }
    }
  }

  /** First inside is first among the positions with the same first turn. */
  lemma NestedFirst(specs: seq<Spec>, turn: Turn, turns: seq<Turn>, step: nat)
    requires ListAt(specs, turn).Some?
    requires forall t: seq<Turn>, s: nat :: FaultAt(ListAt(specs, turn).value, t, s) ==> !Earlier(t, s, turns, step)
    ensures forall t: seq<Turn>, s: nat ::
              t != [] && t[0] == turn && FaultAt(specs, t, s) ==> !Earlier(t, s, [turn] + turns, step)
  {
    forall t: seq<Turn>, s: nat | t != [] && t[0] == turn && FaultAt(specs, t, s)
      ensures !Earlier(t, s, [turn] + turns, step)
    {
      assert FaultAt(ListAt(specs, turn).value, t[1..], s);
      assert ([turn] + turns)[1..] == turns;
    }
  }
}
