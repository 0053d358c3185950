/** What a diagnosis row says about the step it stands for, and which steps have one. */
module FlowDiagnosis {
  import opened Wrappers
  import opened FlowTree
  import opened FlowWalkers

  /** How many branches and loops a position lies inside. */
  function Depth(p: Path): nat { if p == [] then 0 else (if p[0].NextSeg? then 0 else 1) + Depth(p[1..]) }

  /** The position is reached by entering routers by their children and loops by their bodies only. */
  predicate Seen(t: Tree, p: Path)
    decreases |p|
  {
    t.Some? &&
    (p == [] ||
     match p[0]
     case NextSeg => Seen(t.value.next, p[1..])
     case ChildSeg(i) => t.value.ty == Router && i < |t.value.children| && Seen(t.value.children[i], p[1..])
     case LoopSeg => t.value.ty == LoopOnItems && Seen(t.value.loop, p[1..]))
  }

  lemma {:induction false} SeenIsThere(t: Tree, p: Path)
    requires Seen(t, p)
    ensures Follow(t, p).Some?
    decreases |p|
  {
    if p != [] {
      match p[0]
      case NextSeg => SeenIsThere(t.value.next, p[1..]);
      case ChildSeg(i) => SeenIsThere(t.value.children[i], p[1..]);
      case LoopSeg => SeenIsThere(t.value.loop, p[1..]);
    }
  }

  /** Where nothing is stray, every position is seen. */
  lemma {:induction false} AllSeen(t: Tree, p: Path)
    requires NothingStray(t) && Follow(t, p).Some?
    ensures Seen(t, p)
    decreases |p|
  {
    if p != [] {
      match p[0]
      case NextSeg => AllSeen(t.value.next, p[1..]);
      case ChildSeg(i) =>
        ChildNotStray(t.value.children, i, p[1..]);
        AllSeen(t.value.children[i], p[1..]);
      case LoopSeg => AllSeen(t.value.loop, p[1..]);
    }
  }

  lemma {:induction false} ChildNotStray(ts: seq<Tree>, i: nat, p: Path)
    requires NothingStrayInAll(ts) && i < |ts| && Follow(ts[i], p).Some?
    ensures NothingStray(ts[i]) && CountAll(ts) > 0
    decreases ts
  {
    if i > 0 { ChildNotStray(ts[1..], i - 1, p); }
  }

  // ------------------------------------------------------------------
  // One row
  // ------------------------------------------------------------------

  /** An input key without a value, authentication aside. */
  ghost predicate LacksValue(n: Node, key: string) {
    && n.ty != Router && n.ty != LoopOnItems && n.settings.input.Dict? && key != "auth"
    && exists i :: 0 <= i < |n.settings.input.entries|
                   && n.settings.input.entries[i].key == key
                   && n.settings.input.entries[i].value in {Null, Text(""), List([]), Dict([])}
  }

  ghost predicate Tells(row: Row, n: Node, depth: nat) {
    && row.name == n.name && row.ty == n.ty && row.depth == depth && row.valid == n.valid
    && forall key :: key in row.nullKeys <==> LacksValue(n, key)
  }

  lemma {:induction false} NullKeysAre(entries: seq<Entry>, key: string)
    ensures key in NullKeys(entries) <==>
            key != "auth" && exists i :: 0 <= i < |entries| && entries[i].key == key
                                         && entries[i].value in {Null, Text(""), List([]), Dict([])}
  {
    if entries != [] {
      NullKeysAre(entries[1..], key);
      assert entries == [entries[0]] + entries[1..];
      assert forall i :: 0 < i < |entries| ==> entries[i] == entries[1..][i - 1];
    }
  }

  lemma RowTells(n: Node, depth: nat)
    ensures Tells(RowOf(n, depth), n, depth)
  {
    if n.settings.input.Dict? {
      forall key ensures key in RowOf(n, depth).nullKeys <==> LacksValue(n, key) {
        NullKeysAre(n.settings.input.entries, key);
      }
    }
  }

  // ------------------------------------------------------------------
  // Rows and positions
  // ------------------------------------------------------------------

  /** Every seen step has a row. */
  lemma {:induction false} StepHasRow(t: Tree, depth: nat, p: Path) returns (row: Row)
    requires Seen(t, p)
    ensures Follow(t, p).Some? && row in Rows(t, depth) && Tells(row, Follow(t, p).value, depth + Depth(p))
    decreases |p|
  {
    var n := t.value;
    if p == [] {
      row := RowOf(n, depth);
      RowTells(n, depth);
      assert row == Rows(t, depth)[0];
    } else {
      match p[0] {
        case NextSeg => row := StepHasRow(n.next, depth, p[1..]);
        case LoopSeg => row := StepHasRow(n.loop, depth + 1, p[1..]);
        case ChildSeg(i) =>
          row := StepHasRow(n.children[i], depth + 1, p[1..]);
          RowOfChild(n.children, i, depth + 1, row);
      }
    }
  }

  lemma {:induction false} RowOfChild(ts: seq<Tree>, i: nat, depth: nat, row: Row)
    requires i < |ts| && row in Rows(ts[i], depth)
    ensures row in RowsOfAll(ts, depth)
    decreases ts
  {
    if i > 0 { RowOfChild(ts[1..], i - 1, depth, row); }
  }

  /** Every row tells of a seen step. */
  lemma {:induction false} RowHasStep(t: Tree, depth: nat, row: Row) returns (p: Path)
    requires row in Rows(t, depth)
    ensures Seen(t, p) && Follow(t, p).Some? && Tells(row, Follow(t, p).value, depth + Depth(p))
    decreases t
  {
    var n := t.value;
    if row in Rows(n.next, depth) {
      var q := RowHasStep(n.next, depth, row);
      p := [NextSeg] + q;
    } else if row in Inside(n, depth) {
      if n.ty == Router {
        var i, q := RowHasChild(n.children, depth + 1, row);
        p := [ChildSeg(i)] + q;
      } else {
        var q := RowHasStep(n.loop, depth + 1, row);
        p := [LoopSeg] + q;
      }
    } else {
      p := [];
      RowTells(n, depth);
    }
  }

  lemma {:induction false} RowHasChild(ts: seq<Tree>, depth: nat, row: Row) returns (i: nat, p: Path)
    requires row in RowsOfAll(ts, depth)
    ensures i < |ts| && Seen(ts[i], p) && Follow(ts[i], p).Some?
    ensures Tells(row, Follow(ts[i], p).value, depth + Depth(p))
    decreases ts
  {
    if row in Rows(ts[0], depth) {
      i := 0;
      p := RowHasStep(ts[0], depth, row);
    } else {
      var k;
      k, p := RowHasChild(ts[1..], depth, row);
      i := k + 1;
    }
  }

  // ------------------------------------------------------------------
  // Validity
  // ------------------------------------------------------------------

  ghost predicate SeenValid(t: Tree) { forall p :: Seen(t, p) ==> Follow(t, p).Some? && Follow(t, p).value.valid }

  ghost predicate EveryStepValid(t: Tree) { forall p :: Follow(t, p).Some? ==> Follow(t, p).value.valid }

  /** The rows are all valid exactly when the seen steps are; where nothing is stray, when every step is. */
  lemma RowsValidIff(t: Tree)
    ensures (forall row :: row in Rows(t, 0) ==> row.valid) <==> SeenValid(t)
    ensures NothingStray(t) ==> (SeenValid(t) <==> EveryStepValid(t))
  {
    if forall row :: row in Rows(t, 0) ==> row.valid {
      forall p | Seen(t, p) ensures Follow(t, p).Some? && Follow(t, p).value.valid {
        var row := StepHasRow(t, 0, p);
      }
    }
    if SeenValid(t) {
      forall row | row in Rows(t, 0) ensures row.valid {
        var p := RowHasStep(t, 0, row);
      }
    }
    if NothingStray(t) {
      forall p | Follow(t, p).Some? ensures Seen(t, p) { AllSeen(t, p); }
      forall p | Seen(t, p) ensures Follow(t, p).Some? { SeenIsThere(t, p); }
    }
  }
}
