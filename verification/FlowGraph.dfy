/** The node and edge view of a flow document, plans with a list of labelled branches included. */
module FlowGraph {
  import opened Wrappers
  import opened FlowTree
  import Decimal

  /** What the view reads of a step; loop bodies are not among it. */
  datatype Doc = Doc(ty: StepType, pieceName: string, name: string,
                     next: Option<Doc>, branches: seq<PlanBranch>, children: seq<Option<Doc>>)

  /** A branch leads to its next action, or to itself; `tag` is absent for an empty branch object only. */
  datatype PlanBranch = PlanBranch(tag: Option<Label>, target: Doc)

  type Label = Option<string>

  datatype GraphNode = GraphNode(number: nat, ty: StepType, pieceName: string, name: string)

  datatype Edge = Edge(source: nat, target: nat, tag: Option<Label>)

  /** The text of a node's id. */
  function IdText(number: nat): string { "n" + Decimal.Digits(number) }

  lemma IdTextInjective(a: nat, b: nat)
    ensures IdText(a) == IdText(b) <==> a == b
    ensures IdText(a)[0] == 'n' && IdText(a)[1..] == Decimal.Digits(a)
  {
    if IdText(a) == IdText(b) {
      assert IdText(a)[1..] == Decimal.Digits(a) && IdText(b)[1..] == Decimal.Digits(b);
      Decimal.DigitsInjective(a, b);
    }
  }

  // ------------------------------------------------------------------
  // Positions
  // ------------------------------------------------------------------

  datatype Link = ToNext | ToBranch(index: nat) | ToChild(index: nat)

  type Route = seq<Link>

  /** One link down from a step. */
  function Down(d: Doc, l: Link): Option<Doc> {
    match l
    case ToNext => d.next
    case ToBranch(i) => if i < |d.branches| then Some(d.branches[i].target) else None
    case ToChild(i) => if i < |d.children| then d.children[i] else None
  }

  function Find(d: Option<Doc>, p: Route): Option<Doc>
    decreases |p|
  {
    if d.None? || p == [] then d else Find(Down(d.value, p[0]), p[1..])
  }

  /** A step with its position, the number of the node above it, and the label of the edge between. */
  datatype Placed = Placed(path: Route, doc: Doc, parent: nat, tag: Option<Label>)

  /** The steps in the order they are numbered, after `c` others. */
  function Layout(d: Option<Doc>, path: Route, parent: nat, tag: Option<Label>, c: nat): seq<Placed>
    decreases d
  {
    match d
    case None => []
    case Some(n) => Subtree(n, path, parent, tag, c)
  }

  function Subtree(n: Doc, path: Route, parent: nat, tag: Option<Label>, c: nat): seq<Placed>
    decreases n, 2
  {
    [Placed(path, n, parent, tag)] + Below(n, path, c + 1)
  }

  /** What hangs under the step numbered `own`, the last number given out. */
  function Below(n: Doc, path: Route, own: nat): seq<Placed>
    decreases n, 1
  {
    var next := Layout(n.next, path + [ToNext], own, None, own);
    next + Sideways(n, path, own, own + |next|)
  }

  /** The branches, then the children. */
  function Sideways(n: Doc, path: Route, own: nat, c: nat): seq<Placed>
    decreases n, 0
  {
    var branches := LayoutBranches(n.branches, 0, path, own, c);
    branches + LayoutChildren(n.children, 0, path, own, c + |branches|)
  }

  function BranchSubtree(b: PlanBranch, path: Route, parent: nat, c: nat): seq<Placed>
    decreases b
  {
    Subtree(b.target, path, parent, b.tag, c)
  }

  function LayoutBranches(bs: seq<PlanBranch>, i: nat, path: Route, parent: nat, c: nat): seq<Placed>
    decreases bs
  {
    if bs == [] then []
    else
      var first := BranchSubtree(bs[0], path + [ToBranch(i)], parent, c);
      first + LayoutBranches(bs[1..], i + 1, path, parent, c + |first|)
  }

  function LayoutChildren(ds: seq<Option<Doc>>, i: nat, path: Route, parent: nat, c: nat): seq<Placed>
    decreases ds
  {
    if ds == [] then []
    else
      var first := Layout(ds[0], path + [ToChild(i)], parent, None, c);
      first + LayoutChildren(ds[1..], i + 1, path, parent, c + |first|)
  }

  /** The trigger is the root; below it only its successor is followed. */
  function FlowLayout(trigger: Doc): seq<Placed> {
    [Placed([], trigger, 0, None)] + Layout(trigger.next, [ToNext], 1, None, 1)
  }

  function ToNodes(ps: seq<Placed>, c: nat): seq<GraphNode> {
    seq(|ps|, i requires 0 <= i < |ps| => GraphNode(c + 1 + i, ps[i].doc.ty, ps[i].doc.pieceName, ps[i].doc.name))
  }

  function ToEdges(ps: seq<Placed>, c: nat): seq<Edge> {
    seq(|ps|, i requires 0 <= i < |ps| => Edge(ps[i].parent, c + 1 + i, ps[i].tag))
  }

  // ------------------------------------------------------------------
  // The placed steps hang together
  // ------------------------------------------------------------------

  /** The placed step k hangs below the given parent, or below an earlier one at the position above it. */
  predicate Hangs(ps: seq<Placed>, k: nat, top: nat, c: nat)
    requires k < |ps|
  {
    ps[k].parent == top ||
    (c + 1 <= ps[k].parent < c + 1 + k && OneAbove(ps[ps[k].parent - c - 1].path, ps[k].path))
  }

  predicate OneAbove(upper: Route, lower: Route) { |lower| == |upper| + 1 && lower[..|upper|] == upper }

  predicate AllHang(ps: seq<Placed>, top: nat, c: nat) { forall k :: 0 <= k < |ps| ==> Hangs(ps, k, top, c) }

  /** Those directly below the given parent sit one link below its position. */
  predicate TopsAt(ps: seq<Placed>, top: nat, above: Route) {
    forall k :: 0 <= k < |ps| && ps[k].parent == top ==> OneAbove(above, ps[k].path)
  }

  /** Only the first hangs directly below the given parent. */
  predicate OnlyFirst(ps: seq<Placed>, top: nat) { forall k :: 0 < k < |ps| ==> ps[k].parent > top }

  lemma HangConcat(a: seq<Placed>, b: seq<Placed>, top: nat, c: nat)
    requires AllHang(a, top, c) && AllHang(b, top, c + |a|)
    ensures AllHang(a + b, top, c)
  {
    forall k | 0 <= k < |a + b| ensures Hangs(a + b, k, top, c) {
      if k < |a| {
        assert Hangs(a, k, top, c);
      } else {
        assert Hangs(b, k - |a|, top, c + |a|);
      }
    }
  }

  /** A step in front of the steps below it. */
  lemma UnderNew(p: Placed, below: seq<Placed>, c: nat)
    requires p.parent <= c && p.path != []
    requires AllHang(below, c + 1, c + 1) && TopsAt(below, c + 1, p.path)
    ensures AllHang([p] + below, p.parent, c) && OnlyFirst([p] + below, p.parent)
    ensures TopsAt([p] + below, p.parent, p.path[..|p.path| - 1])
  {
    var all := [p] + below;
    forall k | 0 <= k < |all|
      ensures Hangs(all, k, p.parent, c) && (k > 0 ==> all[k].parent > p.parent)
    {
      if k > 0 {
        assert Hangs(below, k - 1, c + 1, c + 1) && all[k] == below[k - 1];
      }
    }
  }

  lemma {:induction false} LayoutHangs(d: Option<Doc>, path: Route, parent: nat, tag: Option<Label>, c: nat)
    requires parent <= c && path != []
    ensures var ps := Layout(d, path, parent, tag, c);
            AllHang(ps, parent, c) && TopsAt(ps, parent, path[..|path| - 1])
    decreases d, 2
  {
    if d.Some? { SubtreeHangs(d.value, path, parent, tag, c); }
  }

  lemma {:induction false} SubtreeHangs(n: Doc, path: Route, parent: nat, tag: Option<Label>, c: nat)
    requires parent <= c && path != []
    ensures var ps := Subtree(n, path, parent, tag, c);
            AllHang(ps, parent, c) && TopsAt(ps, parent, path[..|path| - 1]) && OnlyFirst(ps, parent)
    decreases n, 2
  {
    BelowHangs(n, path, c + 1);
    UnderNew(Placed(path, n, parent, tag), Below(n, path, c + 1), c);
  }

  lemma {:induction false} BelowHangs(n: Doc, path: Route, own: nat)
    ensures AllHang(Below(n, path, own), own, own) && TopsAt(Below(n, path, own), own, path)
    decreases n, 1
  {
    var next := Layout(n.next, path + [ToNext], own, None, own);
    assert AllHang(next, own, own) && TopsAt(next, own, path) by {
      LayoutHangs(n.next, path + [ToNext], own, None, own);
      assert (path + [ToNext])[..|path|] == path;
    }
    SidewaysHangs(n, path, own, own + |next|);
    HangConcat(next, Sideways(n, path, own, own + |next|), own, own);
    TopsConcat(next, Sideways(n, path, own, own + |next|), own, path);
  }

  lemma {:induction false} SidewaysHangs(n: Doc, path: Route, own: nat, c: nat)
    requires own <= c
    ensures AllHang(Sideways(n, path, own, c), own, c) && TopsAt(Sideways(n, path, own, c), own, path)
    decreases n, 0
  {
    var branches := LayoutBranches(n.branches, 0, path, own, c);
    var children := LayoutChildren(n.children, 0, path, own, c + |branches|);
    BranchesHang(n.branches, 0, path, own, c);
    ChildrenHang(n.children, 0, path, own, c + |branches|);
    HangConcat(branches, children, own, c);
    TopsConcat(branches, children, own, path);
  }

  lemma TopsConcat(a: seq<Placed>, b: seq<Placed>, top: nat, above: Route)
    requires TopsAt(a, top, above) && TopsAt(b, top, above)
    ensures TopsAt(a + b, top, above)
  {
  }

  lemma {:induction false} BranchHangs(b: PlanBranch, path: Route, parent: nat, c: nat)
    requires parent <= c && path != []
    ensures var ps := BranchSubtree(b, path, parent, c);
            AllHang(ps, parent, c) && TopsAt(ps, parent, path[..|path| - 1])
    decreases b, 2
  {
    SubtreeHangs(b.target, path, parent, b.tag, c);
  }

  lemma {:induction false} BranchesHang(bs: seq<PlanBranch>, i: nat, path: Route, parent: nat, c: nat)
    requires parent <= c
    ensures var ps := LayoutBranches(bs, i, path, parent, c); AllHang(ps, parent, c) && TopsAt(ps, parent, path)
    decreases bs, 3
  {
    if bs != [] {
      var first := BranchSubtree(bs[0], path + [ToBranch(i)], parent, c);
      var rest := LayoutBranches(bs[1..], i + 1, path, parent, c + |first|);
      BranchHangs(bs[0], path + [ToBranch(i)], parent, c);
      assert (path + [ToBranch(i)])[..|path|] == path;
      BranchesHang(bs[1..], i + 1, path, parent, c + |first|);
      HangConcat(first, rest, parent, c);
      TopsConcat(first, rest, parent, path);
    }
  }

  lemma {:induction false} ChildrenHang(ds: seq<Option<Doc>>, i: nat, path: Route, parent: nat, c: nat)
    requires parent <= c
    ensures var ps := LayoutChildren(ds, i, path, parent, c); AllHang(ps, parent, c) && TopsAt(ps, parent, path)
    decreases ds, 3
  {
    if ds != [] {
      var first := Layout(ds[0], path + [ToChild(i)], parent, None, c);
      var rest := LayoutChildren(ds[1..], i + 1, path, parent, c + |first|);
      LayoutHangs(ds[0], path + [ToChild(i)], parent, None, c);
      assert (path + [ToChild(i)])[..|path|] == path;
      ChildrenHang(ds[1..], i + 1, path, parent, c + |first|);
      HangConcat(first, rest, parent, c);
      TopsConcat(first, rest, parent, path);
    }
  }

  // ------------------------------------------------------------------
  // The traversal that fills the lists
  // ------------------------------------------------------------------

  lemma ChildrenRest(ds: seq<Option<Doc>>, i: nat, path: Route, parent: nat, c: nat, placed: seq<Placed>)
    requires i < |ds|
    ensures var first := Layout(ds[i], path + [ToChild(i)], parent, None, c);
            placed + LayoutChildren(ds[i..], i, path, parent, c) ==
            placed + first + LayoutChildren(ds[i + 1..], i + 1, path, parent, c + |first|)
  {
    assert ds[i..][1..] == ds[i + 1..];
  }

  lemma BranchesRest(bs: seq<PlanBranch>, i: nat, path: Route, parent: nat, c: nat, placed: seq<Placed>)
    requires i < |bs|
    ensures var first := BranchSubtree(bs[i], path + [ToBranch(i)], parent, c);
            placed + LayoutBranches(bs[i..], i, path, parent, c) ==
            placed + first + LayoutBranches(bs[i + 1..], i + 1, path, parent, c + |first|)
  {
    assert bs[i..][1..] == bs[i + 1..];
  }

  /**
   After a branch has been drawn, its root is the last step hanging directly below the parent; with
   the branch's label on it the drawing is that of the labelled branch.
   */
  lemma LastOut(before: seq<Placed>, b: PlanBranch, path: Route, parent: nat)
    requires parent <= |before| && path != []
    ensures var k := |before|;
            var all := before + Subtree(b.target, path, parent, None, k);
            && k < |all| && all[k].parent == parent && all[k].tag.None?
            && (forall j :: k < j < |all| ==> all[j].parent != parent)
            && all[k := all[k].(tag := b.tag)] == before + BranchSubtree(b, path, parent, k)
  {
    var k := |before|;
    var subtree := Subtree(b.target, path, parent, None, k);
    var all := before + subtree;
    SubtreeHangs(b.target, path, parent, None, k);
    forall j | k < j < |all| ensures all[j].parent != parent {
      assert all[j] == subtree[j - k];
    }
    assert all[k] == subtree[0];
    assert all[k := all[k].(tag := b.tag)] == before + subtree[0 := subtree[0].(tag := b.tag)];
    assert subtree[0 := subtree[0].(tag := b.tag)] == BranchSubtree(b, path, parent, k);
  }

  lemma Assoc(a: seq<Placed>, b: seq<Placed>, c: seq<Placed>)
    ensures a + b + c == a + (b + c)
  {
  }

  class Graph {
    var nodes: seq<GraphNode>
    var edges: seq<Edge>
    var counter: nat
    /** The steps drawn so far. */
    ghost var drawn: seq<Placed>

    /** The lists are those of the drawn steps; the first one has no edge. */
    ghost predicate Valid()
      reads this
    {
      && counter == |drawn|
      && nodes == ToNodes(drawn, 0)
      && edges == if drawn == [] then [] else ToEdges(drawn[1..], 1)
    }

    constructor ()
      ensures Valid() && drawn == []
    {
      nodes, edges, counter, drawn := [], [], 0, [];
    }

    method AddNode(n: Doc, ghost path: Route, parent: Option<nat>) returns (number: nat)
      requires Valid() && (parent.None? <==> drawn == [])
      modifies this
      ensures Valid() && number == counter == |old(drawn)| + 1
      ensures drawn == old(drawn) + [Placed(path, n, if parent.Some? then parent.value else 0, None)]
    {
      counter := counter + 1;
      number := counter;
      nodes := nodes + [GraphNode(number, n.ty, n.pieceName, n.name)];
      if parent.Some? { edges := edges + [Edge(parent.value, number, None)]; }
      drawn := drawn + [Placed(path, n, if parent.Some? then parent.value else 0, None)];
    }

    method Walk(d: Option<Doc>, ghost path: Route, parent: nat)
      requires Valid() && drawn != [] && parent <= |drawn| && path != []
      modifies this
      ensures Valid() && drawn == old(drawn) + Layout(d, path, parent, None, |old(drawn)|)
      decreases d, 2
    {
      if d.Some? { Draw(d.value, path, parent); }
    }

    method Draw(n: Doc, ghost path: Route, parent: nat)
      requires Valid() && drawn != [] && parent <= |drawn| && path != []
      modifies this
      ensures Valid() && drawn == old(drawn) + Subtree(n, path, parent, None, |old(drawn)|)
      decreases n, 2
    {
      var number := AddNode(n, path, Some(parent));
      WalkBelow(n, path, number);
    }

    method WalkBelow(n: Doc, ghost path: Route, number: nat)
      requires Valid() && number == |drawn| > 0 && path != []
      modifies this
      ensures Valid() && drawn == old(drawn) + Below(n, path, number)
      decreases n, 1
    {
      Walk(n.next, path + [ToNext], number);
      WalkSideways(n, path, number);
    }

    method WalkSideways(n: Doc, ghost path: Route, number: nat)
      requires Valid() && 0 < number <= |drawn| && path != []
      modifies this
      ensures Valid() && drawn == old(drawn) + Sideways(n, path, number, |old(drawn)|)
      decreases n, 0
    {
      ghost var before := drawn;
      ghost var branches := LayoutBranches(n.branches, 0, path, number, |drawn|);
      WalkBranches(n.branches, path, number);
      assert drawn == before + branches && |drawn| == |before| + |branches|;
      Assoc(before, branches, LayoutChildren(n.children, 0, path, number, |drawn|));
      WalkChildren(n.children, path, number);
    }

    method WalkChildren(ds: seq<Option<Doc>>, ghost path: Route, parent: nat)
      requires Valid() && drawn != [] && parent <= |drawn| && path != []
      modifies this
      ensures Valid() && drawn == old(drawn) + LayoutChildren(ds, 0, path, parent, |old(drawn)|)
      decreases ds, 2
    {
      ghost var all := drawn + LayoutChildren(ds, 0, path, parent, |drawn|);
      assert ds[0..] == ds;
      var i := 0;
      while i < |ds|
        invariant 0 <= i <= |ds|
        invariant Valid() && drawn != [] && parent <= |drawn|
        invariant all == drawn + LayoutChildren(ds[i..], i, path, parent, |drawn|)
      {
        ghost var before := drawn;
        ghost var first := Layout(ds[i], path + [ToChild(i)], parent, None, |before|);
        Walk(ds[i], path + [ToChild(i)], parent);
        assert drawn == before + first && |drawn| == |before| + |first|;
        assert all == drawn + LayoutChildren(ds[i + 1..], i + 1, path, parent, |drawn|) by {
          ChildrenRest(ds, i, path, parent, |before|, before);
        }
        i := i + 1;
      }
    }

    method WalkBranches(bs: seq<PlanBranch>, ghost path: Route, parent: nat)
      requires Valid() && drawn != [] && parent <= |drawn| && path != []
      modifies this
      ensures Valid() && drawn == old(drawn) + LayoutBranches(bs, 0, path, parent, |old(drawn)|)
      decreases bs, 2
    {
      ghost var all := drawn + LayoutBranches(bs, 0, path, parent, |drawn|);
      assert bs[0..] == bs;
      var i := 0;
      while i < |bs|
        invariant 0 <= i <= |bs|
        invariant Valid() && drawn != [] && parent <= |drawn|
        invariant all == drawn + LayoutBranches(bs[i..], i, path, parent, |drawn|)
      {
        BranchesRest(bs, i, path, parent, |drawn|, drawn);
        WalkBranch(bs[i], path + [ToBranch(i)], parent);
        i := i + 1;
      }
    }

    /** Walks the branch, then labels the last edge out of the parent that has no label yet. */
    method WalkBranch(b: PlanBranch, ghost path: Route, parent: nat)
      requires Valid() && drawn != [] && parent <= |drawn| && path != []
      modifies this
      ensures Valid() && drawn == old(drawn) + BranchSubtree(b, path, parent, |old(drawn)|)
      decreases b, 2
    {
      ghost var before := drawn;
      Draw(b.target, path, parent);
      if b.tag.Some? {
        LastOut(before, b, path, parent);
        LabelLast(parent, b.tag.value, |before|);
      }
    }

    method LabelLast(source: nat, mark: Label, ghost k: nat)
      requires Valid() && 0 < k < |drawn| && drawn[k].parent == source && drawn[k].tag.None?
      requires forall j :: k < j < |drawn| ==> drawn[j].parent != source
      modifies this
      ensures Valid() && drawn == old(drawn)[k := old(drawn)[k].(tag := Some(mark))]
    {
      var i := |edges|;
      while i > 0
        invariant k <= i <= |edges|
        invariant Valid() && drawn == old(drawn) && edges == old(edges)
        decreases i
      {
        i := i - 1;
        if edges[i].source == source && edges[i].tag.None? {
          assert i == k - 1 by { assert edges[i].source == drawn[i + 1].parent; }
          edges := edges[i := edges[i].(tag := Some(mark))];
          drawn := drawn[k := drawn[k].(tag := Some(mark))];
          return;
        }
        assert i != k - 1 by { assert edges[k - 1].source == drawn[k].parent && edges[k - 1].tag == drawn[k].tag; }
      }
    }
  }

  method FlowToGraph(trigger: Doc) returns (g: Graph)
    ensures fresh(g)
    ensures g.nodes == ToNodes(FlowLayout(trigger), 0)
    ensures g.edges == ToEdges(FlowLayout(trigger)[1..], 1)
  {
    g := new Graph();
    var root := g.AddNode(trigger, [], None);
    g.Walk(trigger.next, [ToNext], root);
    assert g.drawn == FlowLayout(trigger);
  }

  // ------------------------------------------------------------------
  // The result is a rooted tree, and it is the document's
  // ------------------------------------------------------------------

  /**
   A rooted tree on the numbers 1 … n: one edge into each number but the first, from a smaller one.
   */
  predicate RootedTree(n: nat, edges: seq<Edge>) {
    && n >= 1 && |edges| == n - 1
    && forall k :: 0 <= k < |edges| ==> edges[k].target == k + 2 && 1 <= edges[k].source < edges[k].target
  }

  /** Climbing from any node of a rooted tree ends at the root. */
  function Climb(n: nat, edges: seq<Edge>, number: nat): (root: nat)
    requires RootedTree(n, edges) && 1 <= number <= n
    ensures root == 1
    decreases number
  {
    if number == 1 then 1 else Climb(n, edges, edges[number - 2].source)
  }

  lemma OneEdgeIn(n: nat, edges: seq<Edge>, number: nat)
    requires RootedTree(n, edges) && 1 <= number <= n
    ensures number == 1 ==> forall k :: 0 <= k < |edges| ==> edges[k].target != number
    ensures number > 1 ==> edges[number - 2].target == number
                           && forall k :: 0 <= k < |edges| && edges[k].target == number ==> k == number - 2
  {
  }

  /**
   The graph of every document is a rooted tree, and each edge joins a step to the step at the
   position directly above it.
   */
  lemma GraphIsTree(trigger: Doc)
    ensures var ps := FlowLayout(trigger);
            var edges := ToEdges(ps[1..], 1);
            && RootedTree(|ps|, edges)
            && (forall k :: 0 <= k < |edges| ==>
                  OneAbove(ps[edges[k].source - 1].path, ps[edges[k].target - 1].path))
            && (forall k :: 0 <= k < |ps| ==> ToNodes(ps, 0)[k].number == k + 1)
            && (forall i, j :: 0 <= i < j < |ps| ==>
                  IdText(ToNodes(ps, 0)[i].number) != IdText(ToNodes(ps, 0)[j].number))
  {
    var below := Layout(trigger.next, [ToNext], 1, None, 1);
    var ps := FlowLayout(trigger);
    LayoutHangs(trigger.next, [ToNext], 1, None, 1);
    assert [ToNext][..0] == [];
    assert ps[1..] == below;
    var edges := ToEdges(below, 1);
    forall k | 0 <= k < |edges|
      ensures edges[k].target == k + 2 && 1 <= edges[k].source < edges[k].target
              && OneAbove(ps[edges[k].source - 1].path, ps[edges[k].target - 1].path)
    {
      assert Hangs(below, k, 1, 1);
      assert ps[k + 1] == below[k];
      if below[k].parent != 1 {
        assert ps[below[k].parent - 1] == below[below[k].parent - 2];
      }
    }
    forall i, j | 0 <= i < j < |ps|
      ensures IdText(ToNodes(ps, 0)[i].number) != IdText(ToNodes(ps, 0)[j].number)
    {
      IdTextInjective(i + 1, j + 1);
    }
  }

  /** `p` sits below `base`, at the position of `d` that its path names. */
  predicate Fits(p: Placed, d: Option<Doc>, base: Route) {
    base <= p.path && Find(d, p.path[|base|..]) == Some(p.doc)
  }

  lemma FitsStep(p: Placed, d: Doc, base: Route, l: Link)
    requires Fits(p, Down(d, l), base + [l])
    ensures Fits(p, Some(d), base)
  {
    var q := p.path[|base|..];
    assert p.path[..|base| + 1] == base + [l] && p.path[..|base|] == base;
    assert q[0] == l && q[1..] == p.path[|base + [l]|..];
  }

  /** Every drawn step is the step of the document at its position. */
  lemma {:induction false} LayoutFits(d: Option<Doc>, path: Route, parent: nat, tag: Option<Label>, c: nat, p: Placed)
    requires p in Layout(d, path, parent, tag, c)
    ensures Fits(p, d, path)
    decreases d, 1
  {
    if p in Below(d.value, path, c + 1) { BelowFits(d.value, path, c + 1, p); }
  }

  lemma {:induction false} BelowFits(n: Doc, path: Route, own: nat, p: Placed)
    requires p in Below(n, path, own)
    ensures Fits(p, Some(n), path)
    decreases n, 0
  {
    var next := Layout(n.next, path + [ToNext], own, None, own);
    var branches := LayoutBranches(n.branches, 0, path, own, own + |next|);
    if p in next {
      LayoutFits(n.next, path + [ToNext], own, None, own, p);
      FitsStep(p, n, path, ToNext);
    } else if p in branches {
      var k := BranchesFit(n.branches, 0, path, own, own + |next|, p);
      FitsStep(p, n, path, ToBranch(k));
    } else {
      var k := ChildrenFit(n.children, 0, path, own, own + |next| + |branches|, p);
      FitsStep(p, n, path, ToChild(k));
    }
  }

  lemma {:induction false} BranchFits(b: PlanBranch, path: Route, parent: nat, c: nat, p: Placed)
    requires p in BranchSubtree(b, path, parent, c)
    ensures Fits(p, Some(b.target), path)
    decreases b, 2
  {
    if p in Below(b.target, path, c + 1) { BelowFits(b.target, path, c + 1, p); }
  }

  lemma {:induction false} BranchesFit(bs: seq<PlanBranch>, i: nat, path: Route, parent: nat, c: nat, p: Placed)
    returns (k: nat)
    requires p in LayoutBranches(bs, i, path, parent, c)
    ensures i <= k < i + |bs| && Fits(p, Some(bs[k - i].target), path + [ToBranch(k)])
    decreases bs, 2
  {
    var first := BranchSubtree(bs[0], path + [ToBranch(i)], parent, c);
    if p in first {
      BranchFits(bs[0], path + [ToBranch(i)], parent, c, p);
      k := i;
    } else {
      k := BranchesFit(bs[1..], i + 1, path, parent, c + |first|, p);
    }
  }

  lemma {:induction false} ChildrenFit(ds: seq<Option<Doc>>, i: nat, path: Route, parent: nat, c: nat, p: Placed)
    returns (k: nat)
    requires p in LayoutChildren(ds, i, path, parent, c)
    ensures i <= k < i + |ds| && Fits(p, ds[k - i], path + [ToChild(k)])
    decreases ds, 2
  {
    var first := Layout(ds[0], path + [ToChild(i)], parent, None, c);
    if p in first {
      LayoutFits(ds[0], path + [ToChild(i)], parent, None, c, p);
      k := i;
    } else {
      k := ChildrenFit(ds[1..], i + 1, path, parent, c + |first|, p);
    }
  }

  /** The i-th branch of a step is drawn with its own label on its edge. */
  lemma {:induction false} BranchLabelled(bs: seq<PlanBranch>, i: nat, path: Route, parent: nat, c: nat, k: nat)
    requires i <= k < i + |bs|
    ensures Placed(path + [ToBranch(k)], bs[k - i].target, parent, bs[k - i].tag)
      in LayoutBranches(bs, i, path, parent, c)
  {
    var first := BranchSubtree(bs[0], path + [ToBranch(i)], parent, c);
    assert first == Subtree(bs[0].target, path + [ToBranch(i)], parent, bs[0].tag, c);
    assert first[0] == Placed(path + [ToBranch(i)], bs[0].target, parent, bs[0].tag);
    if k > i {
      BranchLabelled(bs[1..], i + 1, path, parent, c + |first|, k);
    }
  }

  // ------------------------------------------------------------------
  // Every step below the trigger is drawn
  // ------------------------------------------------------------------

  ghost predicate DrawnAt(ps: seq<Placed>, path: Route) { exists p :: p in ps && p.path == path }

  lemma {:induction false} LayoutComplete(d: Option<Doc>, path: Route, parent: nat, tag: Option<Label>, c: nat,
                                          q: Route)
    requires Find(d, q).Some?
    ensures DrawnAt(Layout(d, path, parent, tag, c), path + q)
    decreases |q|, 1
  {
    SubtreeComplete(d.value, path, parent, tag, c, q);
  }

  lemma {:induction false} SubtreeComplete(n: Doc, path: Route, parent: nat, tag: Option<Label>, c: nat, q: Route)
    requires Find(Some(n), q).Some?
    ensures DrawnAt(Subtree(n, path, parent, tag, c), path + q)
    decreases |q|, 0
  {
    var own := c + 1;
    var next := Layout(n.next, path + [ToNext], own, None, own);
    var branches := LayoutBranches(n.branches, 0, path, own, own + |next|);
    SubtreeParts(n, path, parent, tag, c);
    if q == [] {
      assert path + q == path;
    } else {
      assert path + [q[0]] + q[1..] == path + q;
      match q[0]
      case ToNext => LayoutComplete(n.next, path + [ToNext], own, None, own, q[1..]);
      case ToBranch(i) => BranchesComplete(n.branches, 0, path, own, own + |next|, i, q[1..]);
      case ToChild(i) => ChildrenComplete(n.children, 0, path, own, own + |next| + |branches|, i, q[1..]);
    }
  }

  /** A subtree holds its step and everything that hangs below it. */
  lemma SubtreeParts(n: Doc, path: Route, parent: nat, tag: Option<Label>, c: nat)
    ensures var own := c + 1;
            var next := Layout(n.next, path + [ToNext], own, None, own);
            var branches := LayoutBranches(n.branches, 0, path, own, own + |next|);
            var children := LayoutChildren(n.children, 0, path, own, own + |next| + |branches|);
            forall p :: p in Subtree(n, path, parent, tag, c) <==>
                        p == Placed(path, n, parent, tag) || p in next || p in branches || p in children
  {
    var own := c + 1;
    var next := Layout(n.next, path + [ToNext], own, None, own);
    var branches := LayoutBranches(n.branches, 0, path, own, own + |next|);
    var children := LayoutChildren(n.children, 0, path, own, own + |next| + |branches|);
    assert Sideways(n, path, own, own + |next|) == branches + children;
    assert Below(n, path, own) == next + (branches + children);
    assert Subtree(n, path, parent, tag, c) == [Placed(path, n, parent, tag)] + (next + (branches + children));
  }

  lemma {:induction false} BranchesComplete(bs: seq<PlanBranch>, i: nat, path: Route, parent: nat, c: nat,
                                            k: nat, q: Route)
    requires i <= k < i + |bs| && Find(Some(bs[k - i].target), q).Some?
    ensures DrawnAt(LayoutBranches(bs, i, path, parent, c), path + [ToBranch(k)] + q)
    decreases |q|, 2 + |bs|
  {
    var first := BranchSubtree(bs[0], path + [ToBranch(i)], parent, c);
    if k == i {
      SubtreeComplete(bs[0].target, path + [ToBranch(i)], parent, bs[0].tag, c, q);
    } else {
      BranchesComplete(bs[1..], i + 1, path, parent, c + |first|, k, q);
    }
  }

  lemma {:induction false} ChildrenComplete(ds: seq<Option<Doc>>, i: nat, path: Route, parent: nat, c: nat,
                                            k: nat, q: Route)
    requires i <= k < i + |ds| && Find(ds[k - i], q).Some?
    ensures DrawnAt(LayoutChildren(ds, i, path, parent, c), path + [ToChild(k)] + q)
    decreases |q|, 2 + |ds|
  {
    var first := Layout(ds[0], path + [ToChild(i)], parent, None, c);
    if k == i {
      LayoutComplete(ds[0], path + [ToChild(i)], parent, None, c, q);
    } else {
      ChildrenComplete(ds[1..], i + 1, path, parent, c + |first|, k, q);
    }
  }

  /** The node shows the step: its type, its piece and its name. */
  predicate NodeShows(g: GraphNode, d: Doc) { g.ty == d.ty && g.pieceName == d.pieceName && g.name == d.name }

  /**
   Nodes and positions: each node shows the step at its position, and every position under the
   trigger's successor has a node.
   */
  lemma NodesAreSteps(trigger: Doc, k: nat, q: Route)
    ensures var ps := FlowLayout(trigger);
            k < |ps| ==>
              var d := Find(Some(trigger), ps[k].path);
              d.Some? && NodeShows(ToNodes(ps, 0)[k], d.value)
    ensures q == [] || (q[0] == ToNext && Find(Some(trigger), q).Some?) ==> DrawnAt(FlowLayout(trigger), q)
  {
    var ps := FlowLayout(trigger);
    var below := Layout(trigger.next, [ToNext], 1, None, 1);
    assert ps[0].path == [] && ps[0].doc == trigger;
    if 0 < k < |ps| {
      assert ps[k] == below[k - 1];
      LayoutFits(trigger.next, [ToNext], 1, None, 1, ps[k]);
      var p := ps[k].path;
      assert p[..1] == [ToNext] && p[0] == ToNext && p[1..] == p[|[ToNext]|..];
    }
    if q == [] {
      assert ps[0] in ps;
    } else if q[0] == ToNext && Find(Some(trigger), q).Some? {
      LayoutComplete(trigger.next, [ToNext], 1, None, 1, q[1..]);
      assert [ToNext] + q[1..] == q;
    }
  }

  // ------------------------------------------------------------------
  // What the graph of a compiled flow leaves out
  // ------------------------------------------------------------------

  function View(t: Tree): Option<Doc>
    decreases t
  {
    match t
    case None => None
    case Some(n) => Some(Doc(n.ty, n.settings.pieceName, n.name, View(n.next), [], ViewAll(n.children)))
  }

  function ViewAll(ts: seq<Tree>): seq<Option<Doc>>
    decreases ts
  {
    if ts == [] then [] else [View(ts[0])] + ViewAll(ts[1..])
  }

  /** What the view reads at a position is the step there, branches and loop bodies aside. */
  lemma {:induction false} ViewFound(t: Tree, q: Route)
    ensures match Find(View(t), q)
            case None => true
            case Some(d) =>
              && Step(t, q).Some? && d.ty == Step(t, q).value.ty && d.name == Step(t, q).value.name
              && d.pieceName == Step(t, q).value.settings.pieceName && d.branches == []
    ensures Step(t, q).Some? ==> Find(View(t), q).Some?
    decreases |q|
  {
    if t.Some? && q != [] {
      assert Find(View(t), q) == Find(Down(View(t).value, q[0]), q[1..]);
      match q[0]
      case ToNext => ViewFound(t.value.next, q[1..]);
      case ToBranch(_) => assert View(t).value.branches == [] && Find(None, q[1..]).None?;
      case ToChild(i) =>
        ViewAllAt(t.value.children);
        if i < |t.value.children| { ViewFound(t.value.children[i], q[1..]); }
    }
  }

  lemma {:induction false} ViewAllAt(ts: seq<Tree>)
    ensures |ViewAll(ts)| == |ts| && forall i :: 0 <= i < |ts| ==> ViewAll(ts)[i] == View(ts[i])
  {
    if ts != [] { ViewAllAt(ts[1..]); }
  }

  /** The step of the document reached by successors and children. */
  function Step(t: Tree, q: Route): Tree
    decreases |q|
  {
    if t.None? || q == [] then t
    else
      match q[0]
      case ToNext => Step(t.value.next, q[1..])
      case ToBranch(_) => None
      case ToChild(i) => if i < |t.value.children| then Step(t.value.children[i], q[1..]) else None
  }

  predicate NoLoopBodies(t: Tree)
    decreases t
  {
    match t
    case None => true
    case Some(n) => n.loop.None? && NoLoopBodies(n.next) && NoLoopBodiesInAll(n.children)
  }

  predicate NoLoopBodiesInAll(ts: seq<Tree>)
    decreases ts
  {
    ts != [] ==> NoLoopBodies(ts[0]) && NoLoopBodiesInAll(ts[1..])
  }

  /** A chain is drawn completely exactly when no step in it has a loop body. */
  lemma {:induction false} DrawnCompletelyIff(t: Tree, path: Route, parent: nat, c: nat)
    ensures |Layout(View(t), path, parent, None, c)| <= Count(t)
    ensures |Layout(View(t), path, parent, None, c)| == Count(t) <==> NoLoopBodies(t)
    decreases t
  {
    if t.Some? {
      var n := t.value;
      var d := View(t).value;
      var next := Layout(d.next, path + [ToNext], c + 1, None, c + 1);
      assert LayoutBranches(d.branches, 0, path, c + 1, c + 1 + |next|) == [];
      assert Layout(View(t), path, parent, None, c) == [Placed(path, d, parent, None)] + Below(d, path, c + 1);
      DrawnCompletelyIff(n.next, path + [ToNext], c + 1, c + 1);
      AllDrawnCompletelyIff(n.children, 0, path, c + 1, c + 1 + |next|);
      assert n.loop.Some? ==> Count(n.loop) > 0;
    }
  }

  lemma {:induction false} AllDrawnCompletelyIff(ts: seq<Tree>, i: nat, path: Route, parent: nat, c: nat)
    ensures |LayoutChildren(ViewAll(ts), i, path, parent, c)| <= CountAll(ts)
    ensures |LayoutChildren(ViewAll(ts), i, path, parent, c)| == CountAll(ts) <==> NoLoopBodiesInAll(ts)
    decreases ts
  {
    if ts != [] {
      var ds := ViewAll(ts);
      assert ds[0] == View(ts[0]) && ds[1..] == ViewAll(ts[1..]);
      DrawnCompletelyIff(ts[0], path + [ToChild(i)], parent, c);
      AllDrawnCompletelyIff(ts[1..], i + 1, path, parent, c + |Layout(ds[0], path + [ToChild(i)], parent, None, c)|);
    }
  }
}
