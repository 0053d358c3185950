/** The independent walkers over a flow document: diagnosis rows, validation paths, piece names. */
module FlowWalkers {
  import opened Wrappers
  import opened FlowTree
  import opened FlowCompiler
  import opened FlowNumbering
  import Decimal
  import Strings

  // ------------------------------------------------------------------
  // Diagnosis rows
  // ------------------------------------------------------------------

  datatype Row = Row(name: string, ty: StepType, depth: nat, valid: bool, nullKeys: seq<string>)

  predicate EmptyValue(v: Val) { v.Null? || v == Text("") || v == List([]) || v == Dict([]) }

  function NullKeys(entries: seq<Entry>): seq<string> {
    if entries == [] then []
    else if entries[0].key != "auth" && EmptyValue(entries[0].value) then [entries[0].key] + NullKeys(entries[1..])
    else NullKeys(entries[1..])
  }

  function NullInputKeys(v: Val): seq<string> { if v.Dict? then NullKeys(v.entries) else [] }

  function RowOf(n: Node, depth: nat): Row {
    Row(n.name, n.ty, depth, n.valid,
        if n.ty.Router? || n.ty.LoopOnItems? then [] else NullInputKeys(n.settings.input))
  }

  /** Looks inside a step by its type only. */
  function Rows(t: Tree, depth: nat): seq<Row>
    decreases t
  {
    match t
    case None => []
    case Some(n) =>
      [RowOf(n, depth)] + Inside(n, depth) + Rows(n.next, depth)
  }

  function Inside(n: Node, depth: nat): seq<Row>
    decreases n
  {
    if n.ty.Router? then RowsOfAll(n.children, depth + 1)
    else if n.ty.LoopOnItems? then Rows(n.loop, depth + 1)
    else []
  }

  function RowsOfAll(ts: seq<Tree>, depth: nat): seq<Row>
    decreases ts
  {
    if ts == [] then [] else Rows(ts[0], depth) + RowsOfAll(ts[1..], depth)
  }

  class Diagnosis {
    var steps: seq<Row>

    constructor ()
      ensures steps == []
    {
      steps := [];
    }

    method Walk(t: Tree, depth: nat)
      modifies this
      ensures steps == old(steps) + Rows(t, depth)
      decreases t
    {
      if t.Some? {
        var n := t.value;
        ghost var before := steps;
        steps := steps + [RowOf(n, depth)];
        WalkInside(n, depth);
        Walk(n.next, depth);
        RowsUnfold(before, n, depth);
      }
    }

    method WalkInside(n: Node, depth: nat)
      modifies this
      ensures steps == old(steps) + Inside(n, depth)
      decreases n
    {
      if n.ty.Router? {
        WalkAll(n.children, depth + 1);
      } else if n.ty.LoopOnItems? {
        Walk(n.loop, depth + 1);
      }
    }

    method WalkAll(ts: seq<Tree>, depth: nat)
      modifies this
      ensures steps == old(steps) + RowsOfAll(ts, depth)
      decreases ts
    {
      ghost var all := steps + RowsOfAll(ts, depth);
      var i := 0;
      assert ts[0..] == ts;
      while i < |ts|
        invariant 0 <= i <= |ts|
        invariant all == steps + RowsOfAll(ts[i..], depth)
      {
        RowsRest(steps, ts, i, depth);
        Walk(ts[i], depth);
        i := i + 1;
      }
    }
  }

  lemma RowsUnfold(before: seq<Row>, n: Node, depth: nat)
    ensures before + [RowOf(n, depth)] + Inside(n, depth) + Rows(n.next, depth) == before + Rows(Some(n), depth)
  {
  }

  lemma RowsRest(before: seq<Row>, ts: seq<Tree>, i: nat, depth: nat)
    requires i < |ts|
    ensures before + RowsOfAll(ts[i..], depth) == before + Rows(ts[i], depth) + RowsOfAll(ts[i + 1..], depth)
  {
    assert ts[i..][1..] == ts[i + 1..];
  }

  /** No step carries children or a loop body its type does not call for. */
  predicate NothingStray(t: Tree)
    decreases t
  {
    match t
    case None => true
    case Some(n) =>
      && (n.ty.Router? || CountAll(n.children) == 0)
      && (n.ty.LoopOnItems? || n.loop.None?)
      && NothingStray(n.next) && NothingStrayInAll(n.children) && NothingStray(n.loop)
  }

  predicate NothingStrayInAll(ts: seq<Tree>)
    decreases ts
  {
    ts != [] ==> NothingStray(ts[0]) && NothingStrayInAll(ts[1..])
  }

  /** The diagnosis lists every step exactly when nothing is stray. */
  lemma {:induction false} RowsCount(t: Tree, depth: nat)
    ensures |Rows(t, depth)| <= Count(t)
    ensures |Rows(t, depth)| == Count(t) <==> NothingStray(t)
    decreases t
  {
    if t.Some? {
      var n := t.value;
      RowsCount(n.next, depth);
      RowsCount(n.loop, depth + 1);
      RowsOfAllCount(n.children, depth + 1);
    }
  }

  lemma {:induction false} RowsOfAllCount(ts: seq<Tree>, depth: nat)
    ensures |RowsOfAll(ts, depth)| <= CountAll(ts)
    ensures |RowsOfAll(ts, depth)| == CountAll(ts) <==> NothingStrayInAll(ts)
    ensures CountAll(ts) == 0 ==> NothingStrayInAll(ts)
    decreases ts
  {
    if ts != [] {
      RowsCount(ts[0], depth);
      RowsOfAllCount(ts[1..], depth);
    }
  }

  lemma {:induction false} ChainNothingStray(specs: seq<Spec>, c: nat, resolve: Resolver)
    requires BuildChain(specs, c, resolve).Ok?
    ensures NothingStray(BuildChain(specs, c, resolve).value.tree)
    decreases specs, 1
  {
    if specs != [] {
      ChainNothingStray(specs[1..], c, resolve);
      var rest := BuildChain(specs[1..], c, resolve).value;
      StepNothingStray(specs[0], rest.counter, rest.tree, resolve);
    }
  }

  lemma {:induction false} StepNothingStray(s: Spec, c: nat, next: Tree, resolve: Resolver)
    requires BuildStep(s, c, next, resolve).Ok? && NothingStray(next)
    ensures NothingStray(BuildStep(s, c, next, resolve).value.tree)
    decreases s, 0
  {
    if s.RouterSpec? {
      ChildrenNothingStray(s.branches, c + 1, resolve);
    } else if s.LoopSpec? {
      ChainNothingStray(s.actions, c + 1, resolve);
    }
  }

  lemma {:induction false} ChildrenNothingStray(bs: seq<BranchSpec>, c: nat, resolve: Resolver)
    requires BuildChildren(bs, c, resolve).Ok?
    ensures NothingStrayInAll(BuildChildren(bs, c, resolve).value.children)
    decreases bs, 1
  {
    if bs != [] {
      var first := BuildChain(bs[0].actions, c, resolve).value;
      var rest := BuildChildren(bs[1..], first.counter, resolve).value;
      ChainNothingStray(bs[0].actions, c, resolve);
      ChildrenNothingStray(bs[1..], first.counter, resolve);
      assert ([first.tree] + rest.children)[1..] == rest.children;
    }
  }

  /** A trigger over a compiled chain. */
  function Triggered(settings: Settings, chain: Tree): Tree {
    Some(Node("trigger", PieceTrigger, true, settings, chain, [], None))
  }

  /** On a compiled flow the diagnosis counts one trigger and every specified step. */
  lemma DiagnosisCounts(specs: seq<Spec>, c: nat, resolve: Resolver, settings: Settings)
    requires BuildChain(specs, c, resolve).Ok?
    ensures |Rows(Triggered(settings, BuildChain(specs, c, resolve).value.tree), 0)| == 1 + SizeOf(specs)
  {
    var chain := BuildChain(specs, c, resolve).value.tree;
    var t := Triggered(settings, chain);
    ChainSize(specs, c, resolve);
    ChainNothingStray(specs, c, resolve);
    var n := t.value;
    assert n.next == chain && Count(n.loop) == 0 && CountAll(n.children) == 0;
    assert NothingStrayInAll(n.children) && NothingStray(n.loop);
    assert Count(t) == 1 + Count(n.next) + CountAll(n.children) + Count(n.loop);
    assert NothingStray(t);
    RowsCount(t, 0);
  }

  // ------------------------------------------------------------------
  // Positions in a tree
  // ------------------------------------------------------------------

  datatype Seg = NextSeg | ChildSeg(index: nat) | LoopSeg

  type Path = seq<Seg>

  /** The step at a position, if there is one. */
  function Follow(t: Tree, p: Path): Tree
    decreases |p|
  {
    if t.None? || p == [] then t
    else
      match p[0]
      case NextSeg => Follow(t.value.next, p[1..])
      case ChildSeg(i) => if i < |t.value.children| then Follow(t.value.children[i], p[1..]) else None
      case LoopSeg => Follow(t.value.loop, p[1..])
  }

  function RenderSeg(s: Seg): string {
    match s
    case NextSeg => ".nextAction"
    case ChildSeg(i) => ".children[" + Decimal.Digits(i) + "]"
    case LoopSeg => ".firstLoopAction"
  }

  function RenderSegs(p: Path): string { if p == [] then "" else RenderSeg(p[0]) + RenderSegs(p[1..]) }

  function Render(p: Path): string { "trigger" + RenderSegs(p) }

  /** The path text grows from the trigger's, one hop at a time. */
  lemma RenderExtends(p: Path, i: nat)
    ensures Render([]) == "trigger"
    ensures Render(p + [NextSeg]) == Render(p) + ".nextAction"
    ensures Render(p + [ChildSeg(i)]) == Render(p) + (".children[" + Decimal.Digits(i) + "]")
    ensures Render(p + [LoopSeg]) == Render(p) + ".firstLoopAction"
  {
    RenderHop(p, NextSeg);
    RenderHop(p, ChildSeg(i));
    RenderHop(p, LoopSeg);
  }

  lemma RenderHop(p: Path, s: Seg)
    ensures Render(p + [s]) == Render(p) + RenderSeg(s)
  {
    RenderOneMore(p, s);
  }

  lemma {:induction false} RenderOneMore(p: Path, s: Seg)
    ensures RenderSegs(p + [s]) == RenderSegs(p) + RenderSeg(s)
  {
    if p == [] {
      assert p + [s] == [s] && [s][1..] == [] && RenderSegs([]) == "";
    } else {
      RenderOneMore(p[1..], s);
      assert (p + [s])[1..] == p[1..] + [s] && (p + [s])[0] == p[0];
      Strings.Assoc(RenderSeg(p[0]), RenderSegs(p[1..]), RenderSeg(s));
    }
  }

  /** A run of digits ends at the first closing bracket. */
  lemma {:induction false} SameDigits(a: string, x: string, b: string, y: string)
    requires Decimal.AllDigits(a) && Decimal.AllDigits(b)
    requires a + "]" + x == b + "]" + y
    ensures a == b && x == y
  {
    assert (a + "]" + x)[0] == if a == "" then ']' else a[0];
    assert (b + "]" + y)[0] == if b == "" then ']' else b[0];
    if a == "" {
      assert b == "";
      assert a + "]" + x == "]" + x && b + "]" + y == "]" + y;
      assert ("]" + x)[1..] == x && ("]" + y)[1..] == y;
    } else {
      assert (a + "]" + x)[1..] == a[1..] + "]" + x;
      assert (b + "]" + y)[1..] == b[1..] + "]" + y;
      SameDigits(a[1..], x, b[1..], y);
      assert a == [a[0]] + a[1..] && b == [b[0]] + b[1..];
    }
  }

  lemma SameRest(a: string, s: string, t: string)
    requires a + s == a + t
    ensures s == t
  {
    assert s == (a + s)[|a|..] && t == (a + t)[|a|..];
  }

  lemma ChildText(i: nat, x: string)
    ensures RenderSeg(ChildSeg(i)) + x == ".children[" + (Decimal.Digits(i) + "]" + x)
  {
    Strings.Assoc(".children[", Decimal.Digits(i), "]");
    Strings.Assoc(".children[", Decimal.Digits(i) + "]", x);
  }

  lemma SameChild(i: nat, x: string, j: nat, y: string)
    requires RenderSeg(ChildSeg(i)) + x == RenderSeg(ChildSeg(j)) + y
    ensures i == j && x == y
  {
    var a, b := Decimal.Digits(i), Decimal.Digits(j);
    var open := ".children[";
    var s, t := a + "]" + x, b + "]" + y;
    ChildText(i, x);
    ChildText(j, y);
    SameRest(open, s, t);
    assert Decimal.AllDigits(a) && Decimal.AllDigits(b) by {
      Decimal.DigitsRead(i);
      Decimal.DigitsRead(j);
    }
    SameDigits(a, x, b, y);
    Decimal.DigitsInjective(i, j);
  }

  function Initial(s: Seg): char { if s.NextSeg? then 'n' else if s.LoopSeg? then 'f' else 'c' }

  lemma InitialOf(s: Seg, x: string)
    ensures |RenderSeg(s)| > 1 && (RenderSeg(s) + x)[1] == Initial(s)
  {
    assert RenderSeg(s)[1] == Initial(s);
  }

  lemma SameSegment(s: Seg, x: string, t: Seg, y: string)
    requires RenderSeg(s) + x == RenderSeg(t) + y
    ensures s == t && x == y
  {
    InitialOf(s, x);
    InitialOf(t, y);
    if s.ChildSeg? {
      SameChild(s.index, x, t.index, y);
    } else {
      assert (RenderSeg(s) + x)[|RenderSeg(s)|..] == x && (RenderSeg(s) + y)[|RenderSeg(s)|..] == y;
    }
  }

  /** Different positions have different path texts. */
  lemma {:induction false} RenderInjective(p: Path, q: Path)
    ensures RenderSegs(p) == RenderSegs(q) <==> p == q
  {
    if RenderSegs(p) == RenderSegs(q) {
      if p != [] && q != [] {
        SameSegment(p[0], RenderSegs(p[1..]), q[0], RenderSegs(q[1..]));
        RenderInjective(p[1..], q[1..]);
        assert p == [p[0]] + p[1..] && q == [q[0]] + q[1..];
      }
    }
  }

  // ------------------------------------------------------------------
  // The validator's walk
  // ------------------------------------------------------------------

  datatype Visit = Visit(path: Path, node: Node)

  /** Successor, children, loop body: whatever is there, whatever the type. */
  function WalkSteps(t: Tree, base: Path): seq<Visit>
    decreases t
  {
    match t
    case None => []
    case Some(n) =>
      [Visit(base, n)] + WalkSteps(n.next, base + [NextSeg]) + WalkChildren(n.children, 0, base)
      + WalkSteps(n.loop, base + [LoopSeg])
  }

  function WalkChildren(ts: seq<Tree>, i: nat, base: Path): seq<Visit>
    decreases ts
  {
    if ts == [] then [] else WalkSteps(ts[0], base + [ChildSeg(i)]) + WalkChildren(ts[1..], i + 1, base)
  }

  lemma {:induction false} WalkCount(t: Tree, base: Path)
    ensures |WalkSteps(t, base)| == Count(t)
    decreases t
  {
    if t.Some? {
      WalkCount(t.value.next, base + [NextSeg]);
      WalkChildrenCount(t.value.children, 0, base);
      WalkCount(t.value.loop, base + [LoopSeg]);
    }
  }

  lemma {:induction false} WalkChildrenCount(ts: seq<Tree>, i: nat, base: Path)
    ensures |WalkChildren(ts, i, base)| == CountAll(ts)
    decreases ts
  {
    if ts != [] {
      WalkCount(ts[0], base + [ChildSeg(i)]);
      WalkChildrenCount(ts[1..], i + 1, base);
    }
  }

  /** `v` sits below `base`, at the position of `t` that its path names. */
  predicate Sound(v: Visit, t: Tree, base: Path) {
    base <= v.path && Follow(t, v.path[|base|..]) == Some(v.node)
  }

  lemma SoundStep(v: Visit, t: Tree, base: Path, s: Seg)
    requires t.Some? && Sound(v, Follow(t, [s]), base + [s])
    ensures Sound(v, t, base) && |v.path| > |base| && v.path[|base|] == s
  {
    var q := v.path[|base|..];
    assert [s][1..] == [];
    assert v.path[..|base| + 1] == base + [s] && v.path[..|base|] == base;
    assert q[0] == s && q[1..] == v.path[|base + [s]|..];
    assert Follow(t, [s]) == (match s
                              case NextSeg => t.value.next
                              case ChildSeg(i) => if i < |t.value.children| then t.value.children[i] else None
                              case LoopSeg => t.value.loop);
  }

  lemma {:induction false} WalkSound(t: Tree, base: Path, v: Visit)
    requires v in WalkSteps(t, base)
    ensures Sound(v, t, base)
    decreases t
  {
    var n := t.value;
    if v in WalkSteps(n.next, base + [NextSeg]) {
      WalkSound(n.next, base + [NextSeg], v);
      SoundStep(v, t, base, NextSeg);
    } else if v in WalkSteps(n.loop, base + [LoopSeg]) {
      WalkSound(n.loop, base + [LoopSeg], v);
      SoundStep(v, t, base, LoopSeg);
    } else if v in WalkChildren(n.children, 0, base) {
      var k := WalkChildrenSound(n.children, 0, base, v);
      SoundStep(v, t, base, ChildSeg(k));
    }
  }

  lemma {:induction false} WalkChildrenSound(ts: seq<Tree>, i: nat, base: Path, v: Visit) returns (k: nat)
    requires v in WalkChildren(ts, i, base)
    ensures i <= k < i + |ts| && Sound(v, ts[k - i], base + [ChildSeg(k)])
    decreases ts
  {
    if v in WalkSteps(ts[0], base + [ChildSeg(i)]) {
      WalkSound(ts[0], base + [ChildSeg(i)], v);
      k := i;
    } else {
      k := WalkChildrenSound(ts[1..], i + 1, base, v);
    }
  }

  /** Every position is visited. */
  lemma {:induction false} WalkComplete(t: Tree, base: Path, q: Path)
    requires Follow(t, q).Some?
    ensures Visit(base + q, Follow(t, q).value) in WalkSteps(t, base)
    decreases |q|
  {
    if q == [] {
      assert base + q == base;
    } else {
      var n := t.value;
      assert base + [q[0]] + q[1..] == base + q;
      match q[0]
      case NextSeg => WalkComplete(n.next, base + [NextSeg], q[1..]);
      case LoopSeg => WalkComplete(n.loop, base + [LoopSeg], q[1..]);
      case ChildSeg(i) =>
        WalkComplete(n.children[i], base + [ChildSeg(i)], q[1..]);
        ChildVisited(n.children, 0, base, i, Visit(base + q, Follow(t, q).value));
    }
  }

  lemma {:induction false} ChildVisited(ts: seq<Tree>, i: nat, base: Path, k: nat, v: Visit)
    requires i <= k < i + |ts| && v in WalkSteps(ts[k - i], base + [ChildSeg(k)])
    ensures v in WalkChildren(ts, i, base)
    decreases ts
  {
    if k > i { ChildVisited(ts[1..], i + 1, base, k, v); }
  }

  predicate DistinctPaths(vs: seq<Visit>) {
    forall i, j :: 0 <= i < j < |vs| ==> vs[i].path != vs[j].path
  }

  lemma DistinctConcat(a: seq<Visit>, b: seq<Visit>)
    requires DistinctPaths(a) && DistinctPaths(b)
    requires forall x, y :: x in a && y in b ==> x.path != y.path
    ensures DistinctPaths(a + b)
  {
    forall i, j | 0 <= i < j < |a + b| ensures (a + b)[i].path != (a + b)[j].path {
      if i < |a| <= j {
        assert (a + b)[i] in a && (a + b)[j] in b;
      }
    }
  }

  /** The first segment of a visit's path below `base`; none for the step at `base` itself. */
  function Turn(v: Visit, base: Path): Option<Seg> {
    if |base| < |v.path| then Some(v.path[|base|]) else None
  }

  lemma TurnOf(t: Tree, base: Path, s: Seg)
    ensures forall v :: v in WalkSteps(t, base + [s]) ==> Turn(v, base) == Some(s)
  {
    forall v | v in WalkSteps(t, base + [s]) ensures Turn(v, base) == Some(s) {
      WalkSound(t, base + [s], v);
    }
  }

  lemma {:induction false} TurnOfChildren(ts: seq<Tree>, i: nat, base: Path)
    ensures forall v :: v in WalkChildren(ts, i, base) ==>
              Turn(v, base).Some? && Turn(v, base).value.ChildSeg? && Turn(v, base).value.index >= i
    decreases ts
  {
    if ts != [] {
      TurnOf(ts[0], base, ChildSeg(i));
      TurnOfChildren(ts[1..], i + 1, base);
    }
  }

  /** No position is visited twice. */
  lemma {:induction false} WalkDistinct(t: Tree, base: Path)
    ensures DistinctPaths(WalkSteps(t, base))
    decreases t
  {
    if t.Some? {
      var n := t.value;
      var own, next := [Visit(base, n)], WalkSteps(n.next, base + [NextSeg]);
      var children, loop := WalkChildren(n.children, 0, base), WalkSteps(n.loop, base + [LoopSeg]);
      WalkDistinct(n.next, base + [NextSeg]);
      WalkDistinct(n.loop, base + [LoopSeg]);
      WalkChildrenDistinct(n.children, 0, base);
      TurnOf(n.next, base, NextSeg);
      TurnOf(n.loop, base, LoopSeg);
      TurnOfChildren(n.children, 0, base);
      assert Turn(own[0], base) == None;
      DistinctByTurn(own, next, base);
      DistinctByTurn(own + next, children, base);
      DistinctByTurn(own + next + children, loop, base);
    }
  }

  lemma DistinctByTurn(a: seq<Visit>, b: seq<Visit>, base: Path)
    requires DistinctPaths(a) && DistinctPaths(b)
    requires forall x, y :: x in a && y in b ==> Turn(x, base) != Turn(y, base)
    ensures DistinctPaths(a + b)
  {
    forall x, y | x in a && y in b ensures x.path != y.path {
      assert Turn(x, base) != Turn(y, base);
    }
    DistinctConcat(a, b);
  }

  lemma {:induction false} WalkChildrenDistinct(ts: seq<Tree>, i: nat, base: Path)
    ensures DistinctPaths(WalkChildren(ts, i, base))
    decreases ts
  {
    if ts != [] {
      WalkDistinct(ts[0], base + [ChildSeg(i)]);
      WalkChildrenDistinct(ts[1..], i + 1, base);
      TurnOf(ts[0], base, ChildSeg(i));
      TurnOfChildren(ts[1..], i + 1, base);
      DistinctByTurn(WalkSteps(ts[0], base + [ChildSeg(i)]), WalkChildren(ts[1..], i + 1, base), base);
    }
  }

  /**
   The walk is exact: a step is visited at a path if and only if it is the step at that position,
   each position once; the path texts are distinct too.
   */
  lemma WalkExact(t: Tree, v: Visit, i: nat, j: nat)
    ensures v in WalkSteps(t, []) <==> Follow(t, v.path) == Some(v.node)
    ensures i < j < |WalkSteps(t, [])| ==> Render(WalkSteps(t, [])[i].path) != Render(WalkSteps(t, [])[j].path)
    ensures |WalkSteps(t, [])| == Count(t)
  {
    if v in WalkSteps(t, []) {
      WalkSound(t, [], v);
      assert v.path[0..] == v.path;
    }
    if Follow(t, v.path) == Some(v.node) {
      WalkComplete(t, [], v.path);
      assert [] + v.path == v.path;
    }
    WalkDistinct(t, []);
    WalkCount(t, []);
    if i < j < |WalkSteps(t, [])| {
      var p, q := WalkSteps(t, [])[i].path, WalkSteps(t, [])[j].path;
      RenderInjective(p, q);
      assert Render(p)[7..] == RenderSegs(p) && Render(q)[7..] == RenderSegs(q);
    }
  }

  /** Diagnosis and validation see the same number of steps exactly when nothing is stray. */
  lemma WalkersAgreeIff(t: Tree)
    ensures |WalkSteps(t, [])| == |Rows(t, 0)| <==> NothingStray(t)
  {
    WalkCount(t, []);
    RowsCount(t, 0);
  }

  // ------------------------------------------------------------------
  // Piece names
  // ------------------------------------------------------------------

  /** Every occurrence of the prefix removed. */
  function Short(s: string): string
    decreases |s|
  {
    if s == "" then ""
    else if Strings.PIECE_PREFIX <= s then Short(s[|Strings.PIECE_PREFIX|..])
    else [s[0]] + Short(s[1..])
  }

  /** A full piece name is reported by its short one; a name without the prefix stays as it is. */
  lemma {:induction false} ShortOf(s: string)
    requires forall i :: 0 <= i < |s| ==> !("@activepieces/piece-" <= s[i..])
    ensures Short(s) == s && Short("@activepieces/piece-" + s) == s
  {
    ShortKeeps(s);
    var full := "@activepieces/piece-" + s;
    assert full[|"@activepieces/piece-"|..] == s;
    assert Strings.PIECE_PREFIX <= full;
  }

  lemma {:induction false} ShortKeeps(s: string)
    requires forall i :: 0 <= i < |s| ==> !(Strings.PIECE_PREFIX <= s[i..])
    ensures Short(s) == s
  {
    if s != "" {
      assert s[0..] == s;
      forall i | 0 <= i < |s[1..]| ensures !(Strings.PIECE_PREFIX <= s[1..][i..]) { assert s[1..][i..] == s[i + 1..]; }
      ShortKeeps(s[1..]);
      assert s == [s[0]] + s[1..];
    }
  }

  function OwnPiece(n: Node): set<string> {
    if n.settings.pieceName == "" then {} else {Short(n.settings.pieceName)}
  }

  function Pieces(t: Tree): set<string>
    decreases t
  {
    match t
    case None => {}
    case Some(n) => OwnPiece(n) + Pieces(n.next) + Pieces(n.loop) + PiecesOfAll(n.children)
  }

  function PiecesOfAll(ts: seq<Tree>): set<string>
    decreases ts
  {
    if ts == [] then {} else Pieces(ts[0]) + PiecesOfAll(ts[1..])
  }

  method CollectPieces(t: Tree, result: set<string>) returns (r: set<string>)
    ensures r == result + Pieces(t)
    decreases t
  {
    r := result;
    if t.Some? {
      var n := t.value;
      r := r + OwnPiece(n);
      r := CollectPieces(n.next, r);
      r := CollectPieces(n.loop, r);
      ghost var start := r;
      var i := 0;
      assert n.children[0..] == n.children;
      while i < |n.children|
        invariant 0 <= i <= |n.children|
        invariant start + PiecesOfAll(n.children) == r + PiecesOfAll(n.children[i..])
      {
        assert n.children[i..][1..] == n.children[i + 1..];
        r := CollectPieces(n.children[i], r);
        i := i + 1;
      }
    }
  }

  predicate Names(vs: seq<Visit>, piece: string) { exists v :: v in vs && piece in OwnPiece(v.node) }

  lemma NamesConcat(a: seq<Visit>, b: seq<Visit>, piece: string)
    ensures Names(a + b, piece) <==> Names(a, piece) || Names(b, piece)
  {
  }

  /** The collected names are those of the steps the validator visits. */
  lemma {:induction false} PiecesAreVisited(t: Tree, base: Path, piece: string)
    ensures piece in Pieces(t) <==> Names(WalkSteps(t, base), piece)
    decreases t
  {
    if t.Some? {
      var n := t.value;
      var own, next := [Visit(base, n)], WalkSteps(n.next, base + [NextSeg]);
      var children, loop := WalkChildren(n.children, 0, base), WalkSteps(n.loop, base + [LoopSeg]);
      PiecesAreVisited(n.next, base + [NextSeg], piece);
      PiecesAreVisited(n.loop, base + [LoopSeg], piece);
      ChildPiecesAreVisited(n.children, 0, base, piece);
      assert Names(own, piece) <==> piece in OwnPiece(n) by { assert own[0] in own; }
      NamesConcat(own, next, piece);
      NamesConcat(own + next, children, piece);
      NamesConcat(own + next + children, loop, piece);
    }
  }

  /** A piece is collected exactly when some step of the document names it, in full or by its short name. */
  lemma CollectedIff(t: Tree, piece: string)
    ensures piece in Pieces(t) <==>
            exists p :: Follow(t, p).Some? && Follow(t, p).value.settings.pieceName != ""
                        && Short(Follow(t, p).value.settings.pieceName) == piece
  {
    PiecesAreVisited(t, [], piece);
    if Names(WalkSteps(t, []), piece) {
      var v :| v in WalkSteps(t, []) && piece in OwnPiece(v.node);
      WalkExact(t, v, 0, 0);
      assert Follow(t, v.path).Some?;
    }
    if p :| Follow(t, p).Some? && Follow(t, p).value.settings.pieceName != ""
            && Short(Follow(t, p).value.settings.pieceName) == piece {
      WalkExact(t, Visit(p, Follow(t, p).value), 0, 0);
      assert piece in OwnPiece(Visit(p, Follow(t, p).value).node);
    }
  }

  lemma {:induction false} ChildPiecesAreVisited(ts: seq<Tree>, i: nat, base: Path, piece: string)
    ensures piece in PiecesOfAll(ts) <==> Names(WalkChildren(ts, i, base), piece)
    decreases ts
  {
    if ts != [] {
      PiecesAreVisited(ts[0], base + [ChildSeg(i)], piece);
      ChildPiecesAreVisited(ts[1..], i + 1, base, piece);
      NamesConcat(WalkSteps(ts[0], base + [ChildSeg(i)]), WalkChildren(ts[1..], i + 1, base), piece);
    }
  }
}
