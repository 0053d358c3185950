/**
 The two structured endpoints: a router followed by a chain, and a loop spliced in place behind the
 last step of the chain that comes before it.
 */
module FlowSplice {
  import opened Wrappers
  import opened FlowTree
  import opened FlowCompiler
  import opened FlowNumbering
  import opened FlowBuilder

  // ------------------------------------------------------------------
  // What the endpoints should build
  // ------------------------------------------------------------------

  /** A chain with another one behind its last step. */
  function Append(t: Tree, tail: Tree): Tree
    decreases t
  {
    match t
    case None => tail
    case Some(n) => Some(n.(next := Append(n.next, tail)))
  }

  datatype LoopRequest = LoopRequest(before: seq<Spec>, items: string, body: seq<Spec>, after: seq<Spec>)

  /** The three chains share the counter; the loop step takes the number left at the end. */
  function LoopFlow(q: LoopRequest, c: nat, resolve: Resolver): Result<Tree, BuildError> {
    match BuildChain(q.before, c, resolve)
    case Err(e) => Err(e)
    case Ok(before) =>
      match BuildChain(q.body, before.counter, resolve)
      case Err(e) => Err(e)
      case Ok(body) =>
        match BuildChain(q.after, body.counter, resolve)
        case Err(e) => Err(e)
        case Ok(after) =>
          var loop := LoopNode(StepName(after.counter), q.items, body.tree, after.tree);
          Ok(Append(before.tree, Some(loop)))
  }

  function RouterFlow(bs: seq<BranchSpec>, after: seq<Spec>, c: nat, resolve: Resolver): Result<Tree, BuildError> {
    match BuildChildren(bs, c, resolve)
    case Err(e) => Err(e)
    case Ok(children) =>
      match BuildChain(after, children.counter, resolve)
      case Err(e) => Err(e)
      case Ok(rest) =>
        Ok(Some(RouterNode(StepName(rest.counter), CompileBranches(bs), children.children, rest.tree)))
  }

  lemma {:induction false} AppendRuns(t: Tree, tail: Tree, o: Oracle, h: History)
    ensures RunTree(Append(t, tail), o, h) == RunTree(tail, o, RunTree(t, o, h))
    decreases t
  {
    if t.Some? {
      var n := t.value;
      var m := n.(next := Append(n.next, tail));
      assert RunNode(m, o, h) == RunNode(n, o, h);
      AppendRuns(n.next, tail, o, RunNode(n, o, h));
    }
  }

  lemma {:induction false} AppendUses(t: Tree, tail: Tree, name: string)
    ensures Uses(Append(t, tail), name) == Uses(t, name) + Uses(tail, name)
    decreases t
  {
    if t.Some? { AppendUses(t.value.next, tail, name); }
  }

  lemma {:induction false} RunConcat(a: seq<Spec>, b: seq<Spec>, resolve: Resolver, o: Oracle, h: History)
    ensures RunSpecs(a + b, resolve, o, h) == RunSpecs(b, resolve, o, RunSpecs(a, resolve, o, h))
    decreases |a|
  {
    if a == [] {
      assert a + b == b;
    } else {
      assert (a + b)[1..] == a[1..] + b;
      RunConcat(a[1..], b, resolve, o, RunSpec(a[0], resolve, o, h));
    }
  }

  /** The loop flow does what `before ++ [loop over the body] ++ after` says. */
  lemma LoopFlowMeaning(q: LoopRequest, c: nat, resolve: Resolver, o: Oracle, h: History)
    requires LoopFlow(q, c, resolve).Ok?
    ensures RunTree(LoopFlow(q, c, resolve).value, o, h) ==
            RunSpecs(q.before + ([LoopSpec(Some(q.items), q.body)] + q.after), resolve, o, h)
  {
    var before := BuildChain(q.before, c, resolve).value;
    var body := BuildChain(q.body, before.counter, resolve).value;
    var after := BuildChain(q.after, body.counter, resolve).value;
    var loop := LoopNode(StepName(after.counter), q.items, body.tree, after.tree);
    var spec := LoopSpec(Some(q.items), q.body);
    var h1 := RunSpecs(q.before, resolve, o, h);
    var h2 := RunSpec(spec, resolve, o, h1);
    AppendRuns(before.tree, Some(loop), o, h);
    ChainMeaning(q.before, c, resolve, o, h);
    LoopMeaning(q.body, before.counter, resolve, o, o.items(h1, q.items), 0, h1);
    assert RunNode(loop, o, h1) == h2;
    ChainMeaning(q.after, body.counter, resolve, o, h2);
    RunConcat(q.before, [spec] + q.after, resolve, o, h);
    assert ([spec] + q.after)[1..] == q.after;
  }

  lemma ChainCounts(specs: seq<Spec>, c: nat, resolve: Resolver, name: string)
    requires BuildChain(specs, c, resolve).Ok?
    ensures Used(BuildChain(specs, c, resolve).value, c, SizeOf(specs), name)
  {
    ChainSize(specs, c, resolve);
    ChainUses(specs, c, resolve, name);
  }

  lemma LoopUses(before: Tree, own: string, items: string, body: Tree, after: Tree, name: string)
    ensures Uses(Append(before, Some(LoopNode(own, items, body, after))), name) ==
            Uses(before, name) + Uses(body, name) + Uses(after, name) + (if name == own then 1 else 0)
  {
    var n := LoopNode(own, items, body, after);
    AppendUses(before, Some(n), name);
    assert UsesInAll(n.children, name) == 0;
    assert Uses(Some(n), name) ==
      (if name == own then 1 else 0) + Uses(after, name)
      + UsesInAll(n.children, name) + Uses(body, name);
  }

  /** At most one step of the tree has the name, and one has exactly when it is step_c … step_{c+n-1}. */
  ghost predicate OneOfRange(t: Tree, c: nat, n: nat, name: string) {
    Uses(t, name) <= 1 && (Uses(t, name) == 1 <==> exists k: nat :: c <= k < c + n && name == StepName(k))
  }

  lemma RangeOfNames(t: Tree, c: nat, n: nat, name: string)
    requires Uses(t, name) == UsesInRange(c, n, name)
    ensures OneOfRange(t, c, n, name)
  {
    RangeOnce(c, n, name);
  }

  lemma FourRanges(c: nat, m: nat, n: nat, k: nat, name: string)
    ensures UsesInRange(c, m + n + k + 1, name) ==
            UsesInRange(c, m, name) + UsesInRange(c + m, n, name) + UsesInRange(c + m + n, k, name)
            + (if name == StepName(c + m + n + k) then 1 else 0)
  {
    RangeSplit(c, m + n + k, 1, name);
    RangeSplit(c, m + n, k, name);
    RangeSplit(c, m, n, name);
    assert UsesInRange(c + m + n + k, 1, name) ==
           (if name == StepName(c + m + n + k) then 1 else 0) + UsesInRange(c + m + n + k + 1, 0, name);
  }

  /** A built chain of n steps that used the names from c on. */
  predicate Used(b: Built, c: nat, n: nat, name: string) {
    b.counter == c + n && Uses(b.tree, name) == UsesInRange(c, n, name)
  }

  /** Three chains on one counter, and the loop step behind them. */
  lemma LoopNames(before: Built, body: Built, after: Built, items: string, c: nat, m: nat, n: nat, k: nat, name: string)
    requires Used(before, c, m, name) && Used(body, before.counter, n, name) && Used(after, body.counter, k, name)
    ensures OneOfRange(Append(before.tree, Some(LoopNode(StepName(after.counter), items, body.tree, after.tree))),
                       c, m + n + k + 1, name)
  {
    var t: Tree := Append(before.tree, Some(LoopNode(StepName(after.counter), items, body.tree, after.tree)));
    assert Uses(t, name) == UsesInRange(c, m + n + k + 1, name) by {
      LoopUses(before.tree, StepName(after.counter), items, body.tree, after.tree, name);
      FourRanges(c, m, n, k, name);
    }
    RangeOfNames(t, c, m + n + k + 1, name);
  }

  /** Its step names are step_c, step_{c+1}, … without gap or repetition. */
  lemma LoopFlowNames(q: LoopRequest, c: nat, resolve: Resolver, name: string)
    requires LoopFlow(q, c, resolve).Ok?
    ensures OneOfRange(LoopFlow(q, c, resolve).value, c, SizeOf(q.before) + SizeOf(q.body) + SizeOf(q.after) + 1, name)
  {
    var before := BuildChain(q.before, c, resolve).value;
    var body := BuildChain(q.body, before.counter, resolve).value;
    var after := BuildChain(q.after, body.counter, resolve).value;
    ChainCounts(q.before, c, resolve, name);
    ChainCounts(q.body, before.counter, resolve, name);
    ChainCounts(q.after, body.counter, resolve, name);
    LoopNames(before, body, after, q.items, c, SizeOf(q.before), SizeOf(q.body), SizeOf(q.after), name);
  }

  lemma RouterFlowMeaning(bs: seq<BranchSpec>, after: seq<Spec>, c: nat, resolve: Resolver, o: Oracle, h: History)
    requires RouterFlow(bs, after, c, resolve).Ok?
    ensures RunTree(RouterFlow(bs, after, c, resolve).value, o, h) ==
            RunSpecs([RouterSpec(bs)] + after, resolve, o, h)
  {
    var children := BuildChildren(bs, c, resolve).value;
    var rest := BuildChain(after, children.counter, resolve).value;
    var node := RouterFlow(bs, after, c, resolve).value.value;
    var choice := o.select(h, CompileBranches(bs));
    ChildrenMeaning(bs, c, resolve, o);
    if choice.Some? && choice.value < |bs| {
      ChildMeaning(bs, c, resolve, o, choice.value, h + [TookBranch(choice.value)]);
    }
    assert RunNode(node, o, h) == RunSpec(RouterSpec(bs), resolve, o, h);
    ChainMeaning(after, children.counter, resolve, o, RunSpec(RouterSpec(bs), resolve, o, h));
    assert ([RouterSpec(bs)] + after)[1..] == after;
  }

  lemma RouterFlowUses(bs: seq<BranchSpec>, after: seq<Spec>, c: nat, resolve: Resolver, name: string)
    requires RouterFlow(bs, after, c, resolve).Ok?
    ensures Uses(RouterFlow(bs, after, c, resolve).value, name) ==
            UsesInRange(c, SizeOfBranches(bs), name) + UsesInRange(c + SizeOfBranches(bs), SizeOf(after), name)
            + (if name == StepName(c + SizeOfBranches(bs) + SizeOf(after)) then 1 else 0)
  {
    var children := BuildChildren(bs, c, resolve).value;
    var rest := BuildChain(after, children.counter, resolve).value;
    assert children.counter == c + SizeOfBranches(bs) by { ChildrenSize(bs, c, resolve); }
    assert rest.counter == children.counter + SizeOf(after) by { ChainSize(after, children.counter, resolve); }
    ChildrenUses(bs, c, resolve, name);
    ChainUses(after, children.counter, resolve, name);
  }

  lemma RouterFlowNames(bs: seq<BranchSpec>, after: seq<Spec>, c: nat, resolve: Resolver, name: string)
    requires RouterFlow(bs, after, c, resolve).Ok?
    ensures OneOfRange(RouterFlow(bs, after, c, resolve).value, c, SizeOfBranches(bs) + SizeOf(after) + 1, name)
  {
    var n := SizeOfBranches(bs) + SizeOf(after) + 1;
    assert Uses(RouterFlow(bs, after, c, resolve).value, name) == UsesInRange(c, n, name) by {
      RouterFlowUses(bs, after, c, resolve, name);
      FourRanges(c, SizeOfBranches(bs), 0, SizeOf(after), name);
    }
    RangeOfNames(RouterFlow(bs, after, c, resolve).value, c, n, name);
  }

  // ------------------------------------------------------------------
  // The steps as objects
  // ------------------------------------------------------------------

  /** One step object; the successor lives in the mutable field, `node.next` is not used. */
  class Step {
    const node: Node
    var next: Step?

    constructor (node: Node, next: Step?)
      ensures this.node == node && this.next == next
    {
      this.node := node;
      this.next := next;
    }
  }

  ghost function At(spine: seq<Step>, i: nat): Step? { if i < |spine| then spine[i] else null }

  /** The objects reached from `first` by `next` are exactly `spine`, in order. */
  ghost predicate Linked(first: Step?, spine: seq<Step>)
    reads spine
  {
    && first == At(spine, 0)
    && forall i :: 0 <= i < |spine| ==> spine[i].next == At(spine, i + 1)
  }

  ghost function ReadBack(spine: seq<Step>): Tree {
    if spine == [] then None else Some(spine[0].node.(next := ReadBack(spine[1..])))
  }

  lemma {:induction false} ReadBackConcat(a: seq<Step>, b: seq<Step>)
    ensures ReadBack(a + b) == Append(ReadBack(a), ReadBack(b))
  {
    if a == [] {
      assert a + b == b;
    } else {
      assert (a + b)[1..] == a[1..] + b;
      ReadBackConcat(a[1..], b);
    }
  }

  lemma PushLinked(s: Step, rest: Step?, tail: seq<Step>)
    requires s.next == rest && Linked(rest, tail)
    ensures Linked(s, [s] + tail)
  {
    var spine := [s] + tail;
    forall i | 0 <= i < |spine| ensures spine[i].next == At(spine, i + 1) {
      if i > 0 { assert spine[i] == tail[i - 1]; }
    }
  }

  /** A built chain as linked objects. */
  method Link(t: Tree) returns (first: Step?, ghost spine: seq<Step>)
    ensures Linked(first, spine) && ReadBack(spine) == t
    ensures forall i :: 0 <= i < |spine| ==> fresh(spine[i])
    decreases t
  {
    match t {
      case None => first, spine := null, [];
      case Some(n) =>
        var rest, tail := Link(n.next);
        var s := new Step(n, rest);
        first, spine := s, [s] + tail;
        assert spine[1..] == tail;
        PushLinked(s, rest, tail);
    }
  }

  /** Walks to the last step and hangs `loop` behind it; no other object changes. */
  method Splice(first: Step, loop: Step, ghost before: seq<Step>, ghost tail: seq<Step>)
    requires Linked(first, before) && Linked(loop, tail)
    requires forall i, j :: 0 <= i < |before| && 0 <= j < |tail| ==> before[i] != tail[j]
    modifies before
    ensures Linked(first, before + tail)
    ensures forall i :: 0 <= i < |before| - 1 ==> before[i].next == old(before[i].next)
  {
    var cur := first;
    ghost var i := 0;
    while cur.next != null
      invariant 0 <= i < |before| && cur == before[i]
      invariant Linked(first, before)
      decreases |before| - i
    {
      cur := cur.next;
      i := i + 1;
    }
    assert cur == before[|before| - 1];
    assert forall j :: 0 <= j < |before| - 1 ==> before[j].next != null;
    cur.next := loop;
    ghost var all := before + tail;
    assert forall j :: 0 <= j < |before| - 1 ==> before[j].next == At(all, j + 1);
    assert forall j :: 0 <= j < |tail| ==> tail[j].next == At(tail, j + 1);
    forall j | 0 <= j < |all| ensures all[j].next == At(all, j + 1) {
      if j >= |before| { assert all[j] == tail[j - |before|]; }
    }
  }

  /** The loop endpoint: three chains from one counter, then the splice. */
  method BuildLoop(q: LoopRequest, resolve: Resolver) returns (r: Result<Step, BuildError>, ghost spine: seq<Step>)
    ensures match LoopFlow(q, FIRST_STEP, resolve)
            case Err(e) => r == Err(e)
            case Ok(t) => r.Ok? && Linked(r.value, spine) && ReadBack(spine) == t
  {
    spine := [];
    var b := new Builder(resolve);
    var before := b.BuildChain(q.before);
    if before.Err? { return Err(before.error), []; }
    var body := b.BuildChain(q.body);
    if body.Err? { return Err(body.error), []; }
    var after := b.BuildChain(q.after);
    if after.Err? { return Err(after.error), []; }
    var number := b.counter;
    b.counter := b.counter + 1;
    var first;
    first, spine := Assemble(before.value, StepName(number), q.items, body.value, after.value);
    return Ok(first), spine;
  }

  method Assemble(before: Tree, name: string, items: string, body: Tree, after: Tree)
    returns (first: Step, ghost spine: seq<Step>)
    ensures Linked(first, spine)
    ensures ReadBack(spine) == Append(before, Some(LoopNode(name, items, body, after)))
  {
    var rest, restSpine := Link(after);
    var loop := new Step(LoopNode(name, items, body, None), rest);
    ghost var tail := [loop] + restSpine;
    assert tail[1..] == restSpine;
    PushLinked(loop, rest, restSpine);
    var head, headSpine := Link(before);
    ReadBackConcat(headSpine, tail);
    if head != null {
      Splice(head, loop, headSpine, tail);
      first, spine := head, headSpine + tail;
    } else {
      first, spine := loop, tail;
    }
  }

  method BuildRouter(bs: seq<BranchSpec>, after: seq<Spec>, resolve: Resolver) returns (r: Result<Tree, BuildError>)
    ensures r == RouterFlow(bs, after, FIRST_STEP, resolve)
  {
    var b := new Builder(resolve);
    var children := b.BuildChildren(bs);
    if children.Err? { return Err(children.error); }
    var rest := b.BuildChain(after);
    if rest.Err? { return Err(rest.error); }
    return Ok(Some(RouterNode(StepName(b.counter), CompileBranches(bs), children.value, rest.value)));
  }
}
