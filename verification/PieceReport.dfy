/**
 What the validator reports about a step, told from the texts and values themselves: which error, for
 which field, exactly when.
 */
module PieceReport {
  import opened Wrappers
  import opened FlowTree
  import opened PieceValidator
  import opened Strings

  /** The registry's version of a range text: leading range marks off, then the blanks. */
  ghost predicate NamesVersion(raw: string, version: string) {
    exists i :: 0 <= i <= |raw| && (forall k :: 0 <= k < i ==> raw[k] in {'~', '^'})
                && (i < |raw| ==> raw[i] !in {'~', '^'}) && StripsTo(raw[i..], version)
  }

  lemma {:induction false} MarksDropped(raw: string) returns (i: nat)
    ensures i <= |raw| && DropRangeMarks(raw) == raw[i..] && (forall k :: 0 <= k < i ==> raw[k] in {'~', '^'})
    ensures i < |raw| ==> raw[i] !in {'~', '^'}
  {
    if raw != "" && (raw[0] == '~' || raw[0] == '^') {
      var k := MarksDropped(raw[1..]);
      i := k + 1;
      assert forall j :: 0 < j < |raw| ==> raw[j] == raw[1..][j - 1];
    } else {
      i := 0;
    }
  }

  lemma VersionIff(raw: string, version: string)
    ensures StripVersion(raw) == version <==> NamesVersion(raw, version)
  {
    var i := MarksDropped(raw);
    TrimIff(raw[i..], version);
  }

  // ------------------------------------------------------------------
  // Values
  // ------------------------------------------------------------------

  datatype Hop = AtItem(index: nat) | AtEntry(index: nat)

  /** The value at a place inside a value. */
  function Reach(v: Val, p: seq<Hop>): Option<Val>
    decreases |p|
  {
    if p == [] then Some(v)
    else
      match p[0]
      case AtItem(i) => if v.List? && i < |v.items| then Reach(v.items[i], p[1..]) else None
      case AtEntry(i) => if v.Dict? && i < |v.entries| then Reach(v.entries[i].value, p[1..]) else None
  }

  ghost predicate Placeholder(s: string) {
    || StripsTo(s, "Siyadah Auto-Fill") || StripsTo(s, "TODO_REPLACE_WITH_SPREADSHEET_ID")
    || StripsTo(s, "your_id_here") || StripsTo(s, "<replace_me>")
  }

  /** Two opening braces and two closing ones after them, in one line. */
  ghost predicate Reference(s: string) {
    exists a, x, b :: s == a + "{{" + x + "}}" + b && '\n' !in x
  }

  lemma ReferenceIff(s: string)
    ensures HasReference(s) <==> Reference(s)
  {
    if HasReference(s) {
      var i, j :| 0 <= i < |s| && 0 <= j < |s| && Opens(s, i) && Closes(s, j) && i + 2 <= j && '\n' !in s[i + 2..j];
      Quoted(s, i, j);
    }
    if Reference(s) {
      var a, x, b :| s == a + "{{" + x + "}}" + b && '\n' !in x;
      Marks(s, a, x, b);
    }
  }

  lemma Quoted(s: string, i: nat, j: nat)
    requires Opens(s, i) && Closes(s, j) && i + 2 <= j
    ensures s == s[..i] + "{{" + s[i + 2..j] + "}}" + s[j + 2..]
  {
  }

  lemma Marks(s: string, a: string, x: string, b: string)
    requires s == a + "{{" + x + "}}" + b
    ensures var i, j := |a|, |a| + 2 + |x|; i < |s| && j < |s| && Opens(s, i) && Closes(s, j) && s[i + 2..j] == x
  {
  }

  lemma PlaceholderIff(s: string)
    ensures BannedText(s) <==> Placeholder(s)
  {
    TrimIff(s, "Siyadah Auto-Fill");
    TrimIff(s, "TODO_REPLACE_WITH_SPREADSHEET_ID");
    TrimIff(s, "your_id_here");
    TrimIff(s, "<replace_me>");
  }

  predicate TextAt(v: Val, p: seq<Hop>) { Reach(v, p).Some? && Reach(v, p).value.Text? }

  lemma {:induction false} TextFound(v: Val, kind: string -> bool) returns (p: seq<Hop>)
    requires AnyText(v, kind)
    ensures TextAt(v, p) && kind(Reach(v, p).value.s)
    decreases v
  {
    match v
    case Text(s) =>
      p := [];
    case List(items) =>
      var i, q := TextInItem(items, kind);
      p := [AtItem(i)] + q;
    case Dict(entries) =>
      var i, q := TextInEntry(entries, kind);
      p := [AtEntry(i)] + q;
  }

  lemma {:induction false} TextInItem(items: seq<Val>, kind: string -> bool) returns (i: nat, p: seq<Hop>)
    requires AnyItem(items, kind)
    ensures i < |items| && TextAt(items[i], p) && kind(Reach(items[i], p).value.s)
    decreases items
  {
    if AnyText(items[0], kind) {
      i := 0;
      p := TextFound(items[0], kind);
    } else {
      i, p := TextInItem(items[1..], kind);
      i := i + 1;
    }
  }

  lemma {:induction false} TextInEntry(entries: seq<Entry>, kind: string -> bool) returns (i: nat, p: seq<Hop>)
    requires AnyEntry(entries, kind)
    ensures i < |entries| && TextAt(entries[i].value, p) && kind(Reach(entries[i].value, p).value.s)
    decreases entries
  {
    if AnyText(entries[0].value, kind) {
      i := 0;
      p := TextFound(entries[0].value, kind);
    } else {
      i, p := TextInEntry(entries[1..], kind);
      i := i + 1;
    }
  }

  lemma {:induction false} TextCounts(v: Val, kind: string -> bool, p: seq<Hop>)
    requires TextAt(v, p) && kind(Reach(v, p).value.s)
    ensures AnyText(v, kind)
    decreases |p|
  {
    if p != [] {
      match p[0]
      case AtItem(i) =>
        TextCounts(v.items[i], kind, p[1..]);
        ItemCounts(v.items, kind, i);
      case AtEntry(i) =>
        TextCounts(v.entries[i].value, kind, p[1..]);
        EntryCounts(v.entries, kind, i);
    }
  }

  lemma {:induction false} ItemCounts(items: seq<Val>, kind: string -> bool, i: nat)
    requires i < |items| && AnyText(items[i], kind)
    ensures AnyItem(items, kind)
  {
    if i > 0 { ItemCounts(items[1..], kind, i - 1); }
  }

  lemma {:induction false} EntryCounts(entries: seq<Entry>, kind: string -> bool, i: nat)
    requires i < |entries| && AnyText(entries[i].value, kind)
    ensures AnyEntry(entries, kind)
  {
    if i > 0 { EntryCounts(entries[1..], kind, i - 1); }
  }

  ghost predicate HasPlaceholder(v: Val) { exists p :: TextAt(v, p) && Placeholder(Reach(v, p).value.s) }

  ghost predicate HasLateReference(v: Val) { exists p :: TextAt(v, p) && Reference(Reach(v, p).value.s) }

  /** A value is banned exactly when some text inside it is one of the four placeholders between blanks. */
  lemma BannedIff(v: Val)
    ensures IsBanned(v) <==> HasPlaceholder(v)
  {
    if IsBanned(v) {
      var p := TextFound(v, BannedText);
      PlaceholderIff(Reach(v, p).value.s);
    }
    if HasPlaceholder(v) {
      var p :| TextAt(v, p) && Placeholder(Reach(v, p).value.s);
      PlaceholderIff(Reach(v, p).value.s);
      TextCounts(v, BannedText, p);
    }
  }

  lemma HandlebarsIff(v: Val)
    ensures ContainsHandlebars(v) <==> HasLateReference(v)
  {
    if ContainsHandlebars(v) {
      var p := TextFound(v, HasReference);
      ReferenceIff(Reach(v, p).value.s);
    }
    if HasLateReference(v) {
      var p :| TextAt(v, p) && Reference(Reach(v, p).value.s);
      ReferenceIff(Reach(v, p).value.s);
      TextCounts(v, HasReference, p);
    }
  }

  // ------------------------------------------------------------------
  // Reports
  // ------------------------------------------------------------------

  predicate NoValue(v: Val) { v in {Null, Text(""), List([]), Dict([])} }

  /** The first entry of that name. */
  ghost predicate Given(entries: seq<Entry>, key: string, v: Val) {
    exists i :: 0 <= i < |entries| && entries[i] == Entry(key, v) && forall j :: 0 <= j < i ==> entries[j].key != key
  }

  lemma {:induction false} LookupIs(entries: seq<Entry>, key: string, v: Val)
    ensures Lookup(entries, key) == Some(v) <==> Given(entries, key, v)
    ensures Lookup(entries, key).None? <==> forall i :: 0 <= i < |entries| ==> entries[i].key != key
  {
    if entries != [] {
      LookupIs(entries[1..], key, v);
      assert forall i :: 0 < i < |entries| ==> entries[i] == entries[1..][i - 1];
      if entries[0].key != key {
        if Given(entries[1..], key, v) {
          var i :| 0 <= i < |entries[1..]| && entries[1..][i] == Entry(key, v)
                   && forall j :: 0 <= j < i ==> entries[1..][j].key != key;
          assert entries[i + 1] == Entry(key, v);
        }
        if Given(entries, key, v) {
          var i :| 0 <= i < |entries| && entries[i] == Entry(key, v)
                   && forall j :: 0 <= j < i ==> entries[j].key != key;
          assert entries[1..][i - 1] == Entry(key, v);
          assert forall j :: 0 <= j < i - 1 ==> entries[1..][j] == entries[j + 1];
        }
      } else {
        assert Lookup(entries, key) == Some(v) ==> entries[0] == Entry(key, v);
      }
    }
  }

  /** The step names a piece of the registry and one of its operations. */
  predicate Located(table: PieceTable, n: Node, version: string) {
    && n.settings.pieceName != "" && version != "" && PieceKey(n.settings.pieceName, version) in table
    && Operation(n) != "" && Operation(n) in Operations(table[PieceKey(n.settings.pieceName, version)], n)
  }

  function Operation(n: Node): string {
    if n.ty == PieceTrigger then n.settings.triggerName else n.settings.actionName
  }

  function Operations(p: PieceEntry, n: Node): map<string, seq<string>> {
    if n.ty == PieceTrigger then p.triggers else p.actions
  }

  function Entries(n: Node): seq<Entry> { if n.settings.input.Dict? then n.settings.input.entries else [] }

  predicate RequiredBy(table: PieceTable, n: Node, version: string, field: string)
    requires Located(table, n, version)
  {
    field != "auth" && field in Operations(table[PieceKey(n.settings.pieceName, version)], n)[Operation(n)]
  }

  /** An error of a step that is neither an action nor a trigger of a piece. */
  ghost predicate BareReport(n: Node, code: ErrorCode, field: string) {
    code == BannedPlaceholderValue && field == ".settings.input" && HasPlaceholder(n.settings.input)
  }

  /** An error of the other steps, by its code; `version` is the one the step names. */
  ghost predicate PieceReported(table: PieceTable, n: Node, version: string, code: ErrorCode, field: string) {
    var name := n.settings.pieceName;
    var known := name != "" && version != "" && PieceKey(name, version) in table;
    match code
    case PieceNameMissing => name == "" && field == ".settings.pieceName"
    case PieceVersionMissing => name != "" && version == "" && field == ".settings.pieceVersion"
    case PieceVersionNotInRegistry =>
      && name != "" && version != "" && !known && field == ".settings.pieceVersion"
      && exists k :: k in table && k.name == name
    case PieceNotInRegistry =>
      && name != "" && version != "" && field == ".settings.pieceName"
      && forall k :: k in table ==> k.name != name
    case ActionNameMissing => known && n.ty == Piece && n.settings.actionName == "" && field == ".settings.actionName"
    case TriggerNameMissing =>
      known && n.ty == PieceTrigger && n.settings.triggerName == "" && field == ".settings.triggerName"
    case ActionNotFound =>
      && known && n.ty == Piece && n.settings.actionName != "" && field == ".settings.actionName"
      && n.settings.actionName !in table[PieceKey(name, version)].actions
    case TriggerNotFound =>
      && known && n.ty == PieceTrigger && n.settings.triggerName != "" && field == ".settings.triggerName"
      && n.settings.triggerName !in table[PieceKey(name, version)].triggers
    case AuthRequiredButMissing =>
      && Located(table, n, version) && field == ".settings.input.auth"
      && table[PieceKey(name, version)].authType !in {"", "NONE"}
      && forall v :: Given(Entries(n), "auth", v) ==> NoValue(v)
    case RequiredFieldMissing =>
      && Located(table, n, version)
      && exists f :: RequiredBy(table, n, version, f) && field == ".settings.input." + f
                     && forall i :: 0 <= i < |Entries(n)| ==> Entries(n)[i].key != f
    case RequiredFieldEmpty =>
      && Located(table, n, version)
      && exists f, v :: RequiredBy(table, n, version, f) && field == ".settings.input." + f
                        && Given(Entries(n), f, v) && NoValue(v) && !HasLateReference(v)
    case BannedPlaceholderValue =>
      Located(table, n, version) && field == ".settings.input" && HasPlaceholder(Dict(Entries(n)))
  }

  /** What the report on a step holds, field texts relative to the step's path. */
  ghost predicate Reported(table: PieceTable, n: Node, version: string, code: ErrorCode, field: string) {
    if n.ty == Piece || n.ty == PieceTrigger then PieceReported(table, n, version, code, field)
    else BareReport(n, code, field)
  }

  lemma {:induction false} FieldErrorsAre(required: seq<string>, entries: seq<Entry>, path: string, e: ValidationError)
    ensures e in FieldErrors(required, entries, path) <==>
            exists f :: f in required && e in FieldError(f, entries, path)
  {
    if required != [] {
      FieldErrorsAre(required[1..], entries, path, e);
      assert required == [required[0]] + required[1..];
    }
  }

  lemma FieldErrorIs(f: string, entries: seq<Entry>, path: string, e: ValidationError)
    ensures e in FieldError(f, entries, path) <==>
            f != "auth" && e.field == path + ".settings.input." + f && FieldReported(entries, f, e.code)
  {
    var found := Lookup(entries, f);
    match found
    case None =>
      forall v ensures !Given(entries, f, v) { LookupIs(entries, f, v); }
      LookupIs(entries, f, Null);
    case Some(v) =>
      LookupIs(entries, f, v);
      HandlebarsIff(v);
      forall u ensures Given(entries, f, u) ==> u == v { LookupIs(entries, f, u); }
  }

  ghost predicate Tells(table: PieceTable, n: Node, version: string, path: string, e: ValidationError) {
    exists field :: e.field == path + field && Reported(table, n, version, e.code, field)
  }

  lemma Told(table: PieceTable, n: Node, version: string, path: string, e: ValidationError, field: string)
    requires e.field == path + field && Reported(table, n, version, e.code, field)
    ensures Tells(table, n, version, path, e)
  {
  }

  /** The part of the report that is made once the operation has been found. */
  lemma InputErrorsIff(table: PieceTable, n: Node, version: string, path: string, e: ValidationError)
    requires (n.ty == Piece || n.ty == PieceTrigger) && StripVersion(n.settings.pieceVersion) == version
    requires Located(table, n, version)
    ensures e in StepErrors(table, path, n) <==> Tells(table, n, version, path, e)
  {
    var piece := table[PieceKey(n.settings.pieceName, version)];
    var required := Operations(piece, n)[Operation(n)];
    assert StepErrors(table, path, n) ==
           AuthErrors(piece, Entries(n), path) + FieldErrors(required, Entries(n), path)
           + BannedErrors(Dict(Entries(n)), path);
    BannedIff(Dict(Entries(n)));
    AuthErrorIs(table, n, version, path, e);
    RequiredErrorIs(table, n, version, path, e);
    if e in StepErrors(table, path, n) && e.code == BannedPlaceholderValue {
      Told(table, n, version, path, e, ".settings.input");
    }
    if Tells(table, n, version, path, e) {
      var field :| e.field == path + field && Reported(table, n, version, e.code, field);
      assert e.code in {AuthRequiredButMissing, RequiredFieldMissing, RequiredFieldEmpty, BannedPlaceholderValue};
    }
  }

  lemma AuthErrorIs(table: PieceTable, n: Node, version: string, path: string, e: ValidationError)
    requires (n.ty == Piece || n.ty == PieceTrigger) && Located(table, n, version)
    ensures e in AuthErrors(table[PieceKey(n.settings.pieceName, version)], Entries(n), path) <==>
            e.code == AuthRequiredButMissing && Tells(table, n, version, path, e)
  {
    var found := Lookup(Entries(n), "auth");
    forall v ensures Given(Entries(n), "auth", v) <==> found == Some(v) { LookupIs(Entries(n), "auth", v); }
    if e == ValidationError(AuthRequiredButMissing, path + ".settings.input.auth") && e in
       AuthErrors(table[PieceKey(n.settings.pieceName, version)], Entries(n), path) {
      Told(table, n, version, path, e, ".settings.input.auth");
    }
  }

  /** A required field that the input does not have, or has without a value and without a reference. */
  ghost predicate FieldReported(entries: seq<Entry>, f: string, code: ErrorCode) {
    if code == RequiredFieldMissing then forall i :: 0 <= i < |entries| ==> entries[i].key != f
    else code == RequiredFieldEmpty && exists v :: Given(entries, f, v) && NoValue(v) && !HasLateReference(v)
  }

  lemma RequiredErrorIs(table: PieceTable, n: Node, version: string, path: string, e: ValidationError)
    requires (n.ty == Piece || n.ty == PieceTrigger) && Located(table, n, version)
    ensures var required := Operations(table[PieceKey(n.settings.pieceName, version)], n)[Operation(n)];
            e in FieldErrors(required, Entries(n), path) <==>
            (e.code == RequiredFieldMissing || e.code == RequiredFieldEmpty) && Tells(table, n, version, path, e)
  {
    var required := Operations(table[PieceKey(n.settings.pieceName, version)], n)[Operation(n)];
    FieldErrorsAre(required, Entries(n), path, e);
    if e in FieldErrors(required, Entries(n), path) {
      var f :| f in required && e in FieldError(f, Entries(n), path);
      FieldErrorIs(f, Entries(n), path, e);
      RequiredTells(table, n, version, path, e, f);
    }
    if (e.code == RequiredFieldMissing || e.code == RequiredFieldEmpty) && Tells(table, n, version, path, e) {
      var f := TellsRequired(table, n, version, path, e);
      FieldErrorIs(f, Entries(n), path, e);
    }
  }

  lemma RequiredTells(table: PieceTable, n: Node, version: string, path: string, e: ValidationError, f: string)
    requires (n.ty == Piece || n.ty == PieceTrigger) && Located(table, n, version) && RequiredBy(table, n, version, f)
    requires e.field == path + ".settings.input." + f && FieldReported(Entries(n), f, e.code)
    ensures Tells(table, n, version, path, e)
  {
    assert path + ".settings.input." + f == path + (".settings.input." + f);
    Told(table, n, version, path, e, ".settings.input." + f);
  }

  lemma TellsRequired(table: PieceTable, n: Node, version: string, path: string, e: ValidationError)
    returns (f: string)
    requires (n.ty == Piece || n.ty == PieceTrigger) && Located(table, n, version)
    requires e.code == RequiredFieldMissing || e.code == RequiredFieldEmpty
    requires Tells(table, n, version, path, e)
    ensures RequiredBy(table, n, version, f) && e.field == path + ".settings.input." + f
    ensures FieldReported(Entries(n), f, e.code)
  {
    var field :| e.field == path + field && Reported(table, n, version, e.code, field);
    if e.code == RequiredFieldMissing {
      f :| RequiredBy(table, n, version, f) && field == ".settings.input." + f
           && forall i :: 0 <= i < |Entries(n)| ==> Entries(n)[i].key != f;
    } else {
      var v;
      f, v :| RequiredBy(table, n, version, f) && field == ".settings.input." + f
              && Given(Entries(n), f, v) && NoValue(v) && !HasLateReference(v);
    }
    assert path + ".settings.input." + f == path + (".settings.input." + f);
  }

  /** Before that there is at most one error. */
  lemma EarlyErrorIff(table: PieceTable, n: Node, version: string, path: string, e: ValidationError)
    requires (n.ty == Piece || n.ty == PieceTrigger) && StripVersion(n.settings.pieceVersion) == version
    requires !Located(table, n, version)
    ensures e in StepErrors(table, path, n) <==> Tells(table, n, version, path, e)
  {
    if e in StepErrors(table, path, n) {
      assert StepErrors(table, path, n) == [e];
      var field := e.field[|path|..];
      assert e.field == path + field;
      assert Reported(table, n, version, e.code, field);
    }
    if Tells(table, n, version, path, e) {
      var field :| e.field == path + field && Reported(table, n, version, e.code, field);
    }
  }

  /**
   For every step, table and version text: the report holds an error exactly when the step itself calls
   for it.  Nothing here goes by what the validator computes on the way.
   */
  lemma ReportedIff(table: PieceTable, n: Node, version: string, path: string, e: ValidationError)
    requires NamesVersion(n.settings.pieceVersion, version)
    ensures e in StepErrors(table, path, n) <==> Tells(table, n, version, path, e)
  {
    VersionIff(n.settings.pieceVersion, version);
    if n.ty != Piece && n.ty != PieceTrigger {
      BannedIff(n.settings.input);
      if e in StepErrors(table, path, n) { Told(table, n, version, path, e, ".settings.input"); }
    } else if Located(table, n, version) {
      InputErrorsIff(table, n, version, path, e);
    } else {
      EarlyErrorIff(table, n, version, path, e);
    }
  }

  /** A step passes exactly when nothing is called for. */
  lemma PassesWhenNothingReported(table: PieceTable, n: Node, version: string)
    requires NamesVersion(n.settings.pieceVersion, version)
    ensures StepOk(table, n) <==> forall code, field :: !Reported(table, n, version, code, field)
  {
    NoStepErrorsIff(table, "", n);
    if StepOk(table, n) {
      forall code, field ensures !Reported(table, n, version, code, field) {
        ReportedIff(table, n, version, "", ValidationError(code, field));
        assert "" + field == field;
      }
    } else {
      var e := StepErrors(table, "", n)[0];
      ReportedIff(table, n, version, "", e);
    }
  }
}
