/** The registry check of a flow document before it is imported: all errors, every step. */
module PieceValidator {
  import opened Wrappers
  import opened FlowTree
  import opened FlowCompiler
  import opened FlowWalkers
  import Strings

  datatype PieceKey = PieceKey(name: string, version: string)

  /** For each action or trigger, its required properties; no authentication is the empty text. */
  datatype PieceEntry = PieceEntry(authType: string, actions: map<string, seq<string>>,
                                   triggers: map<string, seq<string>>)

  type PieceTable = map<PieceKey, PieceEntry>

  datatype ErrorCode =
    | PieceNameMissing | PieceVersionMissing | PieceVersionNotInRegistry | PieceNotInRegistry
    | ActionNameMissing | TriggerNameMissing | ActionNotFound | TriggerNotFound
    | AuthRequiredButMissing | RequiredFieldMissing | RequiredFieldEmpty | BannedPlaceholderValue

  datatype ValidationError = ValidationError(code: ErrorCode, field: string)

  const BANNED_VALUES: set<string> :=
    {"Siyadah Auto-Fill", "TODO_REPLACE_WITH_SPREADSHEET_ID", "your_id_here", "<replace_me>"}

  // ------------------------------------------------------------------
  // Values
  // ------------------------------------------------------------------

  function DropRangeMarks(s: string): string {
    if s != "" && (s[0] == '~' || s[0] == '^') then DropRangeMarks(s[1..]) else s
  }

  /** "~0.12.1" names version "0.12.1". */
  function StripVersion(raw: string): string { Strings.Trim(DropRangeMarks(raw)) }

  /** Some text inside the value is of this kind. */
  predicate AnyText(v: Val, kind: string -> bool)
    decreases v
  {
    match v
    case Text(s) => kind(s)
    case List(items) => AnyItem(items, kind)
    case Dict(entries) => AnyEntry(entries, kind)
    case _ => false
  }

  predicate AnyItem(items: seq<Val>, kind: string -> bool)
    decreases items
  {
    items != [] && (AnyText(items[0], kind) || AnyItem(items[1..], kind))
  }

  predicate AnyEntry(entries: seq<Entry>, kind: string -> bool)
    decreases entries
  {
    entries != [] && (AnyText(entries[0].value, kind) || AnyEntry(entries[1..], kind))
  }

  predicate BannedText(s: string) { Strings.Trim(s) in BANNED_VALUES }

  predicate IsBanned(v: Val) { AnyText(v, BannedText) }

  /** A dynamic reference: "{{" and a later "}}" with no line break between them. */
  predicate HasReference(s: string) {
    exists i, j :: 0 <= i < |s| && 0 <= j < |s| && Opens(s, i) && Closes(s, j) && i + 2 <= j && '\n' !in s[i + 2..j]
  }

  predicate Opens(s: string, i: nat) { i + 2 <= |s| && s[i] == '{' && s[i + 1] == '{' }

  predicate Closes(s: string, j: nat) { j + 2 <= |s| && s[j] == '}' && s[j + 1] == '}' }

  predicate ContainsHandlebars(v: Val) { AnyText(v, HasReference) }

  function Lookup(entries: seq<Entry>, key: string): Option<Val> {
    if entries == [] then None
    else if entries[0].key == key then Some(entries[0].value)
    else Lookup(entries[1..], key)
  }

  function InputEntries(n: Node): seq<Entry> {
    if n.settings.input.Dict? then n.settings.input.entries else []
  }

  // ------------------------------------------------------------------
  // One step
  // ------------------------------------------------------------------

  predicate IsPiece(n: Node) { n.ty.Piece? || n.ty.PieceTrigger? }

  function KeyOf(n: Node): PieceKey { PieceKey(n.settings.pieceName, StripVersion(n.settings.pieceVersion)) }

  function OperationOf(n: Node): string {
    if n.ty.PieceTrigger? then n.settings.triggerName else n.settings.actionName
  }

  function IndexOf(p: PieceEntry, n: Node): map<string, seq<string>> {
    if n.ty.PieceTrigger? then p.triggers else p.actions
  }

  predicate NeedsAuth(p: PieceEntry) { p.authType != "" && p.authType != "NONE" }

  predicate Supplied(entries: seq<Entry>, key: string) {
    Lookup(entries, key).Some? && !EmptyValue(Lookup(entries, key).value)
  }

  /** Present, and either not empty or a reference that is filled in later. */
  predicate FieldOk(entries: seq<Entry>, field: string) {
    field == "auth" || (Lookup(entries, field).Some?
                        && (ContainsHandlebars(Lookup(entries, field).value) || Supplied(entries, field)))
  }

  /** What a step must satisfy for the registry. */
  predicate StepOk(table: PieceTable, n: Node) {
    if !IsPiece(n) then !IsBanned(n.settings.input)
    else
      && n.settings.pieceName != "" && KeyOf(n).version != ""
      && KeyOf(n) in table
      && var piece := table[KeyOf(n)];
         && OperationOf(n) != "" && OperationOf(n) in IndexOf(piece, n)
         && (NeedsAuth(piece) ==> Supplied(InputEntries(n), "auth"))
         && (forall i :: 0 <= i < |IndexOf(piece, n)[OperationOf(n)]| ==>
               FieldOk(InputEntries(n), IndexOf(piece, n)[OperationOf(n)][i]))
         && !IsBanned(Dict(InputEntries(n)))
  }

  predicate KnownName(table: PieceTable, name: string) { exists k :: k in table && k.name == name }

  function AuthErrors(piece: PieceEntry, entries: seq<Entry>, path: string): seq<ValidationError> {
    if NeedsAuth(piece) && !Supplied(entries, "auth") then
      [ValidationError(AuthRequiredButMissing, path + ".settings.input.auth")]
    else []
  }

  function FieldErrors(required: seq<string>, entries: seq<Entry>, path: string): seq<ValidationError> {
    if required == [] then []
    else FieldError(required[0], entries, path) + FieldErrors(required[1..], entries, path)
  }

  function FieldError(field: string, entries: seq<Entry>, path: string): seq<ValidationError> {
    if field == "auth" then []
    else
      match Lookup(entries, field)
      case None => [ValidationError(RequiredFieldMissing, path + ".settings.input." + field)]
      case Some(v) =>
        if ContainsHandlebars(v) || !EmptyValue(v) then []
        else [ValidationError(RequiredFieldEmpty, path + ".settings.input." + field)]
  }

  function BannedErrors(v: Val, path: string): seq<ValidationError> {
    if IsBanned(v) then [ValidationError(BannedPlaceholderValue, path + ".settings.input")] else []
  }

  /** The errors of one step, in the order they are reported. */
  function StepErrors(table: PieceTable, path: string, n: Node): seq<ValidationError> {
    if !IsPiece(n) then BannedErrors(n.settings.input, path)
    else if n.settings.pieceName == "" then [ValidationError(PieceNameMissing, path + ".settings.pieceName")]
    else if KeyOf(n).version == "" then [ValidationError(PieceVersionMissing, path + ".settings.pieceVersion")]
    else if KeyOf(n) !in table then
      if KnownName(table, n.settings.pieceName) then
        [ValidationError(PieceVersionNotInRegistry, path + ".settings.pieceVersion")]
      else [ValidationError(PieceNotInRegistry, path + ".settings.pieceName")]
    else
      var field := path + (if n.ty.PieceTrigger? then ".settings.triggerName" else ".settings.actionName");
      var index := IndexOf(table[KeyOf(n)], n);
      if OperationOf(n) == "" then
        [ValidationError(if n.ty.PieceTrigger? then TriggerNameMissing else ActionNameMissing, field)]
      else if OperationOf(n) !in index then
        [ValidationError(if n.ty.PieceTrigger? then TriggerNotFound else ActionNotFound, field)]
      else
        AuthErrors(table[KeyOf(n)], InputEntries(n), path)
        + FieldErrors(index[OperationOf(n)], InputEntries(n), path)
        + BannedErrors(Dict(InputEntries(n)), path)
  }

  lemma {:induction false} NoFieldErrorsIff(required: seq<string>, entries: seq<Entry>, path: string)
    ensures FieldErrors(required, entries, path) == [] <==>
            forall i :: 0 <= i < |required| ==> FieldOk(entries, required[i])
  {
    if required != [] {
      NoFieldErrorsIff(required[1..], entries, path);
      assert FieldError(required[0], entries, path) == [] <==> FieldOk(entries, required[0]);
      assert forall i :: 0 < i < |required| ==> required[i] == required[1..][i - 1];
    }
  }

  lemma NoStepErrorsIff(table: PieceTable, path: string, n: Node)
    ensures StepErrors(table, path, n) == [] <==> StepOk(table, n)
  {
    if IsPiece(n) && KeyOf(n) in table && OperationOf(n) in IndexOf(table[KeyOf(n)], n) {
      NoFieldErrorsIff(IndexOf(table[KeyOf(n)], n)[OperationOf(n)], InputEntries(n), path);
    }
  }

  // ------------------------------------------------------------------
  // The whole document
  // ------------------------------------------------------------------

  function AllErrors(table: PieceTable, vs: seq<Visit>): seq<ValidationError> {
    if vs == [] then []
    else AllErrors(table, vs[..|vs| - 1]) + StepErrors(table, Render(vs[|vs| - 1].path), vs[|vs| - 1].node)
  }

  predicate VisitsOk(table: PieceTable, vs: seq<Visit>) { forall v :: v in vs ==> StepOk(table, v.node) }

  ghost predicate PositionsOk(table: PieceTable, t: Tree) {
    forall p :: Follow(t, p).Some? ==> StepOk(table, Follow(t, p).value)
  }

  lemma {:induction false} NoErrorsIff(table: PieceTable, vs: seq<Visit>)
    ensures AllErrors(table, vs) == [] <==> VisitsOk(table, vs)
  {
    if vs != [] {
      var front, last := vs[..|vs| - 1], vs[|vs| - 1];
      assert vs == front + [last];
      assert VisitsOk(table, vs) <==> VisitsOk(table, front) && StepOk(table, last.node) by {
        VisitsOkConcat(table, front, [last]);
        assert [last][0] in [last];
      }
      NoErrorsIff(table, front);
      NoStepErrorsIff(table, Render(last.path), last.node);
    }
  }

  /** Collects the errors of every step, in walking order. */
  method ValidateTrigger(table: PieceTable, trigger: Tree) returns (errors: seq<ValidationError>)
    ensures errors == AllErrors(table, WalkSteps(trigger, []))
  {
    errors := [];
    var visits := WalkSteps(trigger, []);
    var i := 0;
    while i < |visits|
      invariant 0 <= i <= |visits|
      invariant errors == AllErrors(table, visits[..i])
    {
      assert visits[..i + 1][..i] == visits[..i];
      var found := ValidateStep(table, Render(visits[i].path), visits[i].node);
      errors := errors + found;
      i := i + 1;
    }
    assert visits[..i] == visits;
  }

  method ValidateStep(table: PieceTable, path: string, n: Node) returns (errors: seq<ValidationError>)
    ensures errors == StepErrors(table, path, n)
  {
    if !IsPiece(n) { return BannedErrors(n.settings.input, path); }
    if n.settings.pieceName == "" { return [ValidationError(PieceNameMissing, path + ".settings.pieceName")]; }
    var key := KeyOf(n);
    if key.version == "" { return [ValidationError(PieceVersionMissing, path + ".settings.pieceVersion")]; }
    if key !in table {
      if KnownName(table, n.settings.pieceName) {
        return [ValidationError(PieceVersionNotInRegistry, path + ".settings.pieceVersion")];
      }
      return [ValidationError(PieceNotInRegistry, path + ".settings.pieceName")];
    }
    var field := path + (if n.ty.PieceTrigger? then ".settings.triggerName" else ".settings.actionName");
    var operation := OperationOf(n);
    var index := IndexOf(table[key], n);
    if operation == "" {
      return [ValidationError(if n.ty.PieceTrigger? then TriggerNameMissing else ActionNameMissing, field)];
    }
    if operation !in index {
      return [ValidationError(if n.ty.PieceTrigger? then TriggerNotFound else ActionNotFound, field)];
    }
    var entries := InputEntries(n);
    var required := index[operation];
    errors := AuthErrors(table[key], entries, path);
    ghost var start := errors;
    var i := 0;
    assert required[0..] == required;
    while i < |required|
      invariant 0 <= i <= |required|
      invariant start + FieldErrors(required, entries, path) == errors + FieldErrors(required[i..], entries, path)
    {
      assert required[i..][1..] == required[i + 1..];
      errors := errors + FieldError(required[i], entries, path);
      i := i + 1;
    }
    errors := errors + BannedErrors(Dict(entries), path);
  }

  lemma VisitsArePositions(table: PieceTable, t: Tree)
    ensures VisitsOk(table, WalkSteps(t, [])) <==> PositionsOk(table, t)
  {
    var vs := WalkSteps(t, []);
    if VisitsOk(table, vs) {
      forall p | Follow(t, p).Some? ensures StepOk(table, Follow(t, p).value) {
        WalkExact(t, Visit(p, Follow(t, p).value), 0, 0);
      }
    }
    if PositionsOk(table, t) {
      forall v | v in vs ensures StepOk(table, v.node) {
        WalkExact(t, v, 0, 0);
        assert Follow(t, v.path).Some?;
      }
    }
  }

  /** The document passes exactly when every step that can be reached in it passes. */
  lemma PassesIff(table: PieceTable, trigger: Tree)
    ensures AllErrors(table, WalkSteps(trigger, [])) == [] <==> PositionsOk(table, trigger)
  {
    NoErrorsIff(table, WalkSteps(trigger, []));
    VisitsArePositions(table, trigger);
  }

  // ------------------------------------------------------------------
  // Compiled flows
  // ------------------------------------------------------------------

  predicate TreeOk(table: PieceTable, t: Tree)
    decreases t
  {
    match t
    case None => true
    case Some(n) => StepOk(table, n) && TreeOk(table, n.next) && TreesOk(table, n.children) && TreeOk(table, n.loop)
  }

  predicate TreesOk(table: PieceTable, ts: seq<Tree>)
    decreases ts
  {
    ts != [] ==> TreeOk(table, ts[0]) && TreesOk(table, ts[1..])
  }

  lemma VisitsOkConcat(table: PieceTable, a: seq<Visit>, b: seq<Visit>)
    ensures VisitsOk(table, a + b) <==> VisitsOk(table, a) && VisitsOk(table, b)
  {
  }

  lemma {:induction false} WalkOk(table: PieceTable, t: Tree, base: Path)
    ensures TreeOk(table, t) <==> VisitsOk(table, WalkSteps(t, base))
    decreases t
  {
    if t.Some? {
      var n := t.value;
      WalkOk(table, n.next, base + [NextSeg]);
      WalkOk(table, n.loop, base + [LoopSeg]);
      WalkChildrenOk(table, n.children, 0, base);
      var own, next := [Visit(base, n)], WalkSteps(n.next, base + [NextSeg]);
      var children, loop := WalkChildren(n.children, 0, base), WalkSteps(n.loop, base + [LoopSeg]);
      assert VisitsOk(table, own) <==> StepOk(table, n) by { assert own[0] in own; }
      VisitsOkConcat(table, own, next);
      VisitsOkConcat(table, own + next, children);
      VisitsOkConcat(table, own + next + children, loop);
    }
  }

  lemma {:induction false} WalkChildrenOk(table: PieceTable, ts: seq<Tree>, i: nat, base: Path)
    ensures TreesOk(table, ts) <==> VisitsOk(table, WalkChildren(ts, i, base))
    decreases ts
  {
    if ts != [] {
      WalkOk(table, ts[0], base + [ChildSeg(i)]);
      WalkChildrenOk(table, ts[1..], i + 1, base);
      VisitsOkConcat(table, WalkSteps(ts[0], base + [ChildSeg(i)]), WalkChildren(ts[1..], i + 1, base));
    }
  }

  /** What the registry asks of a specification, nested ones included. */
  predicate SpecOk(table: PieceTable, s: Spec, resolve: Resolver)
    decreases s, 0
  {
    match s
    case PieceSpec(r) => resolve(r).Ok? && StepOk(table, PieceNode("", resolve(r).value, None))
    case CodeSpec(_, _) => !IsBanned(CodeInputOf(s))
    case RouterSpec(bs) => BranchesOk(table, bs, resolve)
    case LoopSpec(_, actions) => SpecsOk(table, actions, resolve)
    case UnknownSpec(_) => false
  }

  predicate BranchesOk(table: PieceTable, bs: seq<BranchSpec>, resolve: Resolver)
    decreases bs, 1
  {
    bs != [] ==> SpecsOk(table, bs[0].actions, resolve) && BranchesOk(table, bs[1..], resolve)
  }

  predicate SpecsOk(table: PieceTable, specs: seq<Spec>, resolve: Resolver)
    decreases specs, 1
  {
    specs != [] ==> SpecOk(table, specs[0], resolve) && SpecsOk(table, specs[1..], resolve)
  }

  lemma {:induction false} ChainOkIff(table: PieceTable, specs: seq<Spec>, c: nat, resolve: Resolver)
    requires BuildChain(specs, c, resolve).Ok?
    ensures TreeOk(table, BuildChain(specs, c, resolve).value.tree) <==> SpecsOk(table, specs, resolve)
    decreases specs, 1
  {
    if specs != [] {
      var rest := BuildChain(specs[1..], c, resolve).value;
      ChainOkIff(table, specs[1..], c, resolve);
      StepOkIff(table, specs[0], rest.counter, rest.tree, resolve);
    }
  }

  lemma {:induction false} StepOkIff(table: PieceTable, s: Spec, c: nat, next: Tree, resolve: Resolver)
    requires BuildStep(s, c, next, resolve).Ok?
    ensures TreeOk(table, BuildStep(s, c, next, resolve).value.tree) <==>
            SpecOk(table, s, resolve) && TreeOk(table, next)
    decreases s, 0
  {
    var n := BuildStep(s, c, next, resolve).value.tree.value;
    assert TreeOk(table, None) && TreesOk(table, []);
    match s
    case PieceSpec(r) => assert StepOk(table, n) <==> StepOk(table, PieceNode("", resolve(r).value, None));
    case CodeSpec(_, _) => assert StepOk(table, n) <==> !IsBanned(CodeInputOf(s));
    case RouterSpec(bs) => ChildrenOkIff(table, bs, c + 1, resolve);
    case LoopSpec(_, actions) => ChainOkIff(table, actions, c + 1, resolve);
  }

  lemma {:induction false} ChildrenOkIff(table: PieceTable, bs: seq<BranchSpec>, c: nat, resolve: Resolver)
    requires BuildChildren(bs, c, resolve).Ok?
    ensures TreesOk(table, BuildChildren(bs, c, resolve).value.children) <==> BranchesOk(table, bs, resolve)
    decreases bs, 1
  {
    if bs != [] {
      var first := BuildChain(bs[0].actions, c, resolve).value;
      var rest := BuildChildren(bs[1..], first.counter, resolve).value;
      ChainOkIff(table, bs[0].actions, c, resolve);
      ChildrenOkIff(table, bs[1..], first.counter, resolve);
      assert ([first.tree] + rest.children)[1..] == rest.children;
    }
  }

  /** A compiled flow passes exactly when its trigger and every specification do, however deep. */
  lemma CompiledPassesIff(table: PieceTable, specs: seq<Spec>, c: nat, resolve: Resolver, settings: Settings)
    requires BuildChain(specs, c, resolve).Ok?
    ensures var t := Triggered(settings, BuildChain(specs, c, resolve).value.tree);
            AllErrors(table, WalkSteps(t, [])) == [] <==>
            SpecsOk(table, specs, resolve) && StepOk(table, Triggered(settings, None).value)
  {
    var chain := BuildChain(specs, c, resolve).value.tree;
    var t := Triggered(settings, chain);
    assert AllErrors(table, WalkSteps(t, [])) == [] <==> TreeOk(table, t) by {
      NoErrorsIff(table, WalkSteps(t, []));
      WalkOk(table, t, []);
    }
    ChainOkIff(table, specs, c, resolve);
    TriggeredOk(table, settings, chain);
  }

  lemma TriggeredOk(table: PieceTable, settings: Settings, chain: Tree)
    ensures TreeOk(table, Triggered(settings, chain)) <==>
            StepOk(table, Triggered(settings, None).value) && TreeOk(table, chain)
  {
    var n, bare := Triggered(settings, chain).value, Triggered(settings, None).value;
    assert n.next == chain && TreeOk(table, n.loop) && TreesOk(table, n.children);
    assert KeyOf(n) == KeyOf(bare) && OperationOf(n) == OperationOf(bare) && InputEntries(n) == InputEntries(bare);
    assert forall p :: IndexOf(p, n) == IndexOf(p, bare);
  }
}
