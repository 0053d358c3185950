/** How the shared counter names the steps, and the order of the build summary. */
module FlowNumbering {
  import opened Wrappers
  import opened FlowTree
  import opened FlowCompiler
  import Decimal

  // ------------------------------------------------------------------
  // Fresh numbering
  // ------------------------------------------------------------------

  /** The counter moves by one for each step built. */
  lemma {:induction false} ChainSize(specs: seq<Spec>, c: nat, resolve: Resolver)
    requires BuildChain(specs, c, resolve).Ok?
    ensures var b := BuildChain(specs, c, resolve).value;
            b.counter == c + SizeOf(specs) && Count(b.tree) == SizeOf(specs)
    decreases specs, 1
  {
    if specs != [] {
      ChainSize(specs[1..], c, resolve);
      var rest := BuildChain(specs[1..], c, resolve).value;
      StepSize(specs[0], rest.counter, rest.tree, resolve);
    }
  }

  lemma {:induction false} StepSize(s: Spec, c: nat, next: Tree, resolve: Resolver)
    requires BuildStep(s, c, next, resolve).Ok?
    ensures var b := BuildStep(s, c, next, resolve).value;
            b.counter == c + Size(s) && Count(b.tree) == Size(s) + Count(next)
    decreases s, 0
  {
    match s
    case PieceSpec(_) =>
    case CodeSpec(_, _) =>
    case RouterSpec(bs) =>
      ChildrenSize(bs, c + 1, resolve);
    case LoopSpec(_, actions) =>
      ChainSize(actions, c + 1, resolve);
  }

  lemma {:induction false} ChildrenSize(bs: seq<BranchSpec>, c: nat, resolve: Resolver)
    requires BuildChildren(bs, c, resolve).Ok?
    ensures var b := BuildChildren(bs, c, resolve).value;
            b.counter == c + SizeOfBranches(bs) && CountAll(b.children) == SizeOfBranches(bs)
    decreases bs, 1
  {
    if bs != [] {
      var first := BuildChain(bs[0].actions, c, resolve).value;
      var rest := BuildChildren(bs[1..], first.counter, resolve).value;
      ChainSize(bs[0].actions, c, resolve);
      ChildrenSize(bs[1..], first.counter, resolve);
      assert ([first.tree] + rest.children)[1..] == rest.children;
    }
  }

  /** A chain built from counter c uses the names step_c … step_{c+size-1}, and no other. */
  lemma {:induction false} ChainUses(specs: seq<Spec>, c: nat, resolve: Resolver, name: string)
    requires BuildChain(specs, c, resolve).Ok?
    ensures Uses(BuildChain(specs, c, resolve).value.tree, name) == UsesInRange(c, SizeOf(specs), name)
    decreases specs, 1
  {
    if specs != [] {
      var rest := BuildChain(specs[1..], c, resolve).value;
      ChainSize(specs[1..], c, resolve);
      ChainUses(specs[1..], c, resolve, name);
      StepUses(specs[0], rest.counter, rest.tree, resolve, name);
      RangeSplit(c, SizeOf(specs[1..]), Size(specs[0]), name);
    }
  }

  lemma {:induction false} StepUses(s: Spec, c: nat, next: Tree, resolve: Resolver, name: string)
    requires BuildStep(s, c, next, resolve).Ok?
    ensures Uses(BuildStep(s, c, next, resolve).value.tree, name) == UsesInRange(c, Size(s), name) + Uses(next, name)
    decreases s, 0
  {
    if s.RouterSpec? {
      ChildrenUses(s.branches, c + 1, resolve, name);
    } else if s.LoopSpec? {
      ChainUses(s.actions, c + 1, resolve, name);
    } else {
      assert UsesInRange(c, 1, name) == (if name == StepName(c) then 1 else 0) + UsesInRange(c + 1, 0, name);
    }
  }

  lemma {:induction false} ChildrenUses(bs: seq<BranchSpec>, c: nat, resolve: Resolver, name: string)
    requires BuildChildren(bs, c, resolve).Ok?
    ensures UsesInAll(BuildChildren(bs, c, resolve).value.children, name) == UsesInRange(c, SizeOfBranches(bs), name)
    decreases bs, 1
  {
    if bs != [] {
      var first := BuildChain(bs[0].actions, c, resolve).value;
      var rest := BuildChildren(bs[1..], first.counter, resolve).value;
      assert first.counter == c + SizeOf(bs[0].actions) by { ChainSize(bs[0].actions, c, resolve); }
      ChainUses(bs[0].actions, c, resolve, name);
      ChildrenUses(bs[1..], first.counter, resolve, name);
      assert ([first.tree] + rest.children)[1..] == rest.children;
      RangeSplit(c, SizeOf(bs[0].actions), SizeOfBranches(bs[1..]), name);
    }
  }

  /** Every name is used at most once, and exactly step_c … step_{c+size-1} are used. */
  lemma FreshNumbering(specs: seq<Spec>, c: nat, resolve: Resolver, name: string)
    requires BuildChain(specs, c, resolve).Ok?
    ensures var b := BuildChain(specs, c, resolve).value;
            && b.counter == c + SizeOf(specs)
            && Uses(b.tree, name) <= 1
            && (Uses(b.tree, name) == 1 <==> exists k: nat :: c <= k < b.counter && name == StepName(k))
  {
    ChainSize(specs, c, resolve);
    ChainUses(specs, c, resolve, name);
    RangeOnce(c, SizeOf(specs), name);
  }

  /** The i-th step to run is numbered after everything behind it in the chain. */
  lemma {:induction false} SpineNames(specs: seq<Spec>, c: nat, resolve: Resolver, i: nat)
    requires BuildChain(specs, c, resolve).Ok?
    ensures |Spine(BuildChain(specs, c, resolve).value.tree)| == |specs|
    ensures i < |specs| ==>
              Spine(BuildChain(specs, c, resolve).value.tree)[i].name == StepName(c + SizeOf(specs[i + 1..]))
  {
    if specs != [] {
      var rest := BuildChain(specs[1..], c, resolve).value;
      SpineNames(specs[1..], c, resolve, if i == 0 then 0 else i - 1);
      var tree := BuildStep(specs[0], rest.counter, rest.tree, resolve).value.tree;
      assert tree.Some? && tree.value.next == rest.tree && tree.value.name == StepName(rest.counter);
      if i == 0 {
        ChainSize(specs[1..], c, resolve);
      } else if i < |specs| {
        assert specs[1..][i..] == specs[i + 1..];
      }
    }
  }

  // ------------------------------------------------------------------
  // The build summary
  // ------------------------------------------------------------------

  /** The summary lists the steps in the order of their numbers, without gaps. */
  predicate Numbered(info: seq<StepInfo>, c: nat) {
    forall k :: 0 <= k < |info| ==> info[k].step == StepName(c + k)
  }

  lemma NumberedConcat(a: seq<StepInfo>, b: seq<StepInfo>, c: nat)
    requires Numbered(a, c) && Numbered(b, c + |a|)
    ensures Numbered(a + b, c)
  {
    forall k | 0 <= k < |a + b| ensures (a + b)[k].step == StepName(c + k) {
      if k >= |a| {
        assert (a + b)[k] == b[k - |a|];
        assert StepName(c + |a| + (k - |a|)) == StepName(c + k);
      }
    }
  }

  lemma {:induction false} ChainInfo(specs: seq<Spec>, c: nat, resolve: Resolver)
    requires BuildChain(specs, c, resolve).Ok?
    ensures var b := BuildChain(specs, c, resolve).value;
            b.counter == c + |b.info| && Numbered(b.info, c)
    decreases specs, 1
  {
    if specs != [] {
      ChainInfo(specs[1..], c, resolve);
      var rest := BuildChain(specs[1..], c, resolve).value;
      StepInfoNumbered(specs[0], rest.counter, rest.tree, resolve);
      NumberedConcat(rest.info, BuildStep(specs[0], rest.counter, rest.tree, resolve).value.info, c);
    }
  }

  lemma {:induction false} StepInfoNumbered(s: Spec, c: nat, next: Tree, resolve: Resolver)
    requires BuildStep(s, c, next, resolve).Ok?
    ensures var b := BuildStep(s, c, next, resolve).value;
            b.counter == c + |b.info| && Numbered(b.info, c)
    decreases s, 0
  {
    match s
    case PieceSpec(_) =>
    case CodeSpec(_, _) =>
    case RouterSpec(bs) =>
      ChildrenInfo(bs, c + 1, resolve);
      NumberedConcat([StepInfo(StepName(c), Router, |bs|)], BuildChildren(bs, c + 1, resolve).value.info, c);
    case LoopSpec(_, actions) =>
      ChainInfo(actions, c + 1, resolve);
      NumberedConcat([StepInfo(StepName(c), LoopOnItems, 0)], BuildChain(actions, c + 1, resolve).value.info, c);
  }

  lemma {:induction false} ChildrenInfo(bs: seq<BranchSpec>, c: nat, resolve: Resolver)
    requires BuildChildren(bs, c, resolve).Ok?
    ensures var b := BuildChildren(bs, c, resolve).value;
            b.counter == c + |b.info| && Numbered(b.info, c)
    decreases bs, 1
  {
    if bs != [] {
      ChainInfo(bs[0].actions, c, resolve);
      var first := BuildChain(bs[0].actions, c, resolve).value;
      ChildrenInfo(bs[1..], first.counter, resolve);
      NumberedConcat(first.info, BuildChildren(bs[1..], first.counter, resolve).value.info, c);
    }
  }

  /** The sort key of a summary row: its step number, or zero when there is none. */
  function Key(row: StepInfo): nat {
    if |row.step| > 5 && row.step[..5] == "step_" && Decimal.AllDigits(row.step[5..]) then
      Decimal.Value(row.step[5..])
    else 0
  }

  predicate Ascending(rows: seq<StepInfo>) {
    forall i, j :: 0 <= i < j < |rows| ==> Key(rows[i]) <= Key(rows[j])
  }

  predicate Strict(rows: seq<StepInfo>) {
    forall i, j :: 0 <= i < j < |rows| ==> Key(rows[i]) < Key(rows[j])
  }

  lemma KeyOfStep(row: StepInfo, n: nat)
    requires row.step == StepName(n)
    ensures Key(row) == n
  {
    Decimal.DigitsRead(n);
    assert row.step[5..] == Decimal.Digits(n);
  }

  lemma SameFirst(a: seq<StepInfo>, b: seq<StepInfo>)
    requires Strict(a) && Ascending(b) && multiset(a) == multiset(b) && a != [] && b != []
    ensures a[0] == b[0]
  {
    assert b[0] in multiset(a) && a[0] in multiset(b);
    var i :| 0 <= i < |a| && a[i] == b[0];
    var j :| 0 <= j < |b| && b[j] == a[0];
    assert i == 0;
  }

  lemma DropFirst(a: seq<StepInfo>)
    requires a != []
    ensures multiset(a[1..]) == multiset(a) - multiset{a[0]}
  {
    assert a == [a[0]] + a[1..];
  }

  lemma {:induction false} OnlyOneSort(a: seq<StepInfo>, b: seq<StepInfo>)
    requires Strict(a) && Ascending(b) && multiset(a) == multiset(b)
    ensures a == b
    decreases |a|
  {
    assert |a| == |multiset(a)| == |multiset(b)| == |b|;
    if a != [] {
      SameFirst(a, b);
      DropFirst(a);
      DropFirst(b);
      OnlyOneSort(a[1..], b[1..]);
      assert a == [a[0]] + a[1..] && b == [b[0]] + b[1..];
    }
  }

  /** Sorting the summary by step number changes nothing: it was numbered in the order it grew. */
  lemma SortChangesNothing(specs: seq<Spec>, c: nat, resolve: Resolver, sorted: seq<StepInfo>)
    requires BuildChain(specs, c, resolve).Ok?
    requires var info := BuildChain(specs, c, resolve).value.info;
             Ascending(sorted) && multiset(sorted) == multiset(info)
    ensures sorted == BuildChain(specs, c, resolve).value.info
  {
    var info := BuildChain(specs, c, resolve).value.info;
    ChainInfo(specs, c, resolve);
    forall k | 0 <= k < |info| ensures Key(info[k]) == c + k { KeyOfStep(info[k], c + k); }
    OnlyOneSort(info, sorted);
  }

  predicate Flat(specs: seq<Spec>) { forall i :: 0 <= i < |specs| ==> !specs[i].RouterSpec? && !specs[i].LoopSpec? }

  lemma {:induction false} FlatSize(specs: seq<Spec>)
    requires Flat(specs)
    ensures SizeOf(specs) == |specs|
  {
    if specs != [] { FlatSize(specs[1..]); }
  }

  lemma FlatSpine(specs: seq<Spec>, c: nat, resolve: Resolver, i: nat)
    requires Flat(specs) && BuildChain(specs, c, resolve).Ok? && i < |specs|
    ensures var spine := Spine(BuildChain(specs, c, resolve).value.tree);
            |spine| == |specs| && spine[i].name == StepName(c + |specs| - 1 - i)
  {
    SpineNames(specs, c, resolve, i);
    FlatSize(specs[i + 1..]);
  }

  lemma SortedRow(specs: seq<Spec>, c: nat, resolve: Resolver, sorted: seq<StepInfo>, k: nat)
    requires Flat(specs) && BuildChain(specs, c, resolve).Ok? && k < |specs|
    requires Ascending(sorted) && multiset(sorted) == multiset(BuildChain(specs, c, resolve).value.info)
    ensures |sorted| == |specs| && sorted[k].step == StepName(c + k)
  {
    SortChangesNothing(specs, c, resolve, sorted);
    ChainInfo(specs, c, resolve);
    ChainSize(specs, c, resolve);
    FlatSize(specs);
  }

  /**
   The sorted summary of a flat chain is its execution order backwards, whatever sorting algorithm
   is used: the i-th step to run is the i-th row from the end.
   */
  lemma SummaryIsReversed(specs: seq<Spec>, c: nat, resolve: Resolver, sorted: seq<StepInfo>, i: nat)
    requires Flat(specs) && BuildChain(specs, c, resolve).Ok? && i < |specs|
    requires Ascending(sorted) && multiset(sorted) == multiset(BuildChain(specs, c, resolve).value.info)
    ensures var spine := Spine(BuildChain(specs, c, resolve).value.tree);
            |spine| == |specs| == |sorted| && spine[i].name == sorted[|specs| - 1 - i].step
  {
    var spine := Spine(BuildChain(specs, c, resolve).value.tree);
    var k: nat := |specs| - 1 - i;
    assert |spine| == |specs| && spine[i].name == StepName(c + |specs| - 1 - i) by { FlatSpine(specs, c, resolve, i); }
    assert |sorted| == |specs| && sorted[k].step == StepName(c + k) by { SortedRow(specs, c, resolve, sorted, k); }
    assert c + k == c + |specs| - 1 - i;
  }

  /** The summary's first row is the first step to run only in a chain of one. */
  lemma SummaryStartsRightIff(specs: seq<Spec>, c: nat, resolve: Resolver, sorted: seq<StepInfo>)
    requires Flat(specs) && BuildChain(specs, c, resolve).Ok? && specs != []
    requires Ascending(sorted) && multiset(sorted) == multiset(BuildChain(specs, c, resolve).value.info)
    ensures var spine := Spine(BuildChain(specs, c, resolve).value.tree);
            |spine| == |specs| == |sorted| && (spine[0].name == sorted[0].step <==> |specs| == 1)
  {
    FlatSpine(specs, c, resolve, 0);
    SortedRow(specs, c, resolve, sorted, 0);
    StepNameInjective(c + |specs| - 1, c);
  }
}
