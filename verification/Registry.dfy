/**
 The file registry of piece schemas: one file per piece, seven indexes derived from them.
 Sorted lists of names are sets here.
 */
module Registry {
  import opened Wrappers
  import Strings

  datatype Auth = Auth(authType: Option<string>, required: bool)

  datatype EntryFields = EntryFields(required: set<string>, dropdown: set<string>, dynamicFields: set<string>)

  /** `present` holds the names of the top-level keys the file has. */
  datatype Record = Record(
    present: set<string>, pieceName: string, version: string, auth: Auth,
    actions: map<string, EntryFields>, triggers: map<string, EntryFields>,
    hash: string, syncedAt: string, sourceUrl: string, formatVersion: int)

  datatype Stamp = Stamp(hash: string, version: string, syncedAt: string, sourceUrl: string)

  datatype Index =
    | NameIndex(names: map<string, set<string>>)
    | FieldIndex(fields: map<string, map<string, set<string>>>)
    | AuthIndex(auths: map<string, Auth>)
    | HashIndex(stamps: map<string, Stamp>)

  datatype IndexFile =
    | ActionsIndex | TriggersIndex | RequiredIndex | DropdownIndex | DynamicIndex | AuthTypesIndex | SchemaHashes

  const INDEX_FILES: seq<IndexFile> :=
    [ActionsIndex, TriggersIndex, RequiredIndex, DropdownIndex, DynamicIndex, AuthTypesIndex, SchemaHashes]

  type Sorter = set<string> -> seq<string>

  const FORMAT_VERSION: int := 1

  const REQUIRED_KEYS: set<string> :=
    {"pieceName", "version", "actions", "triggers", "auth", "schema_hash", "synced_at", "registry_format_version"}

  // ------------------------------------------------------------------
  // Property classes
  // ------------------------------------------------------------------

  datatype Prop = Prop(name: string, propType: string, required: bool)

  const DROPDOWN_TYPES: set<string> := {"DROPDOWN", "MULTI_SELECT_DROPDOWN"}

  const DYNAMIC_TYPES: set<string> := {"DYNAMIC"}

  /** Sorts the properties of an action into the classes its entry lists. */
  method ClassifyProps(props: seq<Prop>) returns (r: EntryFields)
    ensures forall n :: n in r.required <==> exists p :: p in props && p.name == n && p.required
    ensures forall n :: n in r.dropdown <==>
              exists p :: p in props && p.name == n
                          && (p.propType == "DROPDOWN" || p.propType == "MULTI_SELECT_DROPDOWN")
    ensures forall n :: n in r.dynamicFields <==> exists p :: p in props && p.name == n && p.propType == "DYNAMIC"
  {
    r := EntryFields({}, {}, {});
    for i := 0 to |props|
      invariant forall n :: n in r.required <==> exists p :: p in props[..i] && p.name == n && p.required
      invariant forall n :: n in r.dropdown <==>
                  exists p :: p in props[..i] && p.name == n && p.propType in DROPDOWN_TYPES
      invariant forall n :: n in r.dynamicFields <==>
                  exists p :: p in props[..i] && p.name == n && p.propType in DYNAMIC_TYPES
    {
      var p := props[i];
      assert props[..i + 1] == props[..i] + [p];
      if p.required { r := r.(required := r.required + {p.name}); }
      if p.propType in DROPDOWN_TYPES { r := r.(dropdown := r.dropdown + {p.name}); }
      if p.propType in DYNAMIC_TYPES { r := r.(dynamicFields := r.dynamicFields + {p.name}); }
    }
    assert props[..|props|] == props;
  }

  // ------------------------------------------------------------------
  // Indexes
  // ------------------------------------------------------------------

  datatype Row = Row(actions: set<string>, triggers: set<string>, required: map<string, set<string>>,
                     dropdown: map<string, set<string>>, dynamicFields: map<string, set<string>>,
                     auth: Auth, stamp: Stamp)

  function RowOf(r: Record): Row {
    Row(r.actions.Keys, r.triggers.Keys,
        map a | a in r.actions :: r.actions[a].required,
        map a | a in r.actions :: r.actions[a].dropdown,
        map a | a in r.actions :: r.actions[a].dynamicFields,
        r.auth, Stamp(r.hash, r.version, r.syncedAt, r.sourceUrl))
  }

  /** One row per piece name; of several files naming one piece, the last in slug order. */
  function Rows(records: map<string, Record>, order: seq<string>): map<string, Row>
    requires forall s :: s in order ==> s in records
  {
    if order == [] then map[]
    else
      var front := Rows(records, order[..|order| - 1]);
      var r := records[order[|order| - 1]];
      if r.pieceName == "" then front else front[r.pieceName := RowOf(r)]
  }

  function IndexOf(f: IndexFile, rows: map<string, Row>): Index {
    match f
    case ActionsIndex => NameIndex(map p | p in rows :: rows[p].actions)
    case TriggersIndex => NameIndex(map p | p in rows :: rows[p].triggers)
    case RequiredIndex => FieldIndex(map p | p in rows :: rows[p].required)
    case DropdownIndex => FieldIndex(map p | p in rows :: rows[p].dropdown)
    case DynamicIndex => FieldIndex(map p | p in rows :: rows[p].dynamicFields)
    case AuthTypesIndex => AuthIndex(map p | p in rows :: rows[p].auth)
    case SchemaHashes => HashIndex(map p | p in rows :: rows[p].stamp)
  }

  function Files(rows: map<string, Row>): map<IndexFile, Index> {
    map f | f in INDEX_FILES :: IndexOf(f, rows)
  }

  /** A listing of a set without repetition; the source's is sorted. */
  ghost predicate Lists(sort: Sorter) {
    forall s :: (forall x :: x in sort(s) <==> x in s)
                && forall i, j :: 0 <= i < j < |sort(s)| ==> sort(s)[i] != sort(s)[j]
  }

  function BuildIndexes(records: map<string, Record>, sort: Sorter): map<IndexFile, Index>
    requires Lists(sort)
  {
    Files(Rows(records, sort(records.Keys)))
  }

  /** The k-th listed file has the last word on the piece it names. */
  predicate LastNaming(records: map<string, Record>, order: seq<string>, piece: string, k: int)
    requires forall s :: s in order ==> s in records
  {
    && 0 <= k < |order| && records[order[k]].pieceName == piece
    && forall j :: k < j < |order| ==> records[order[j]].pieceName != piece
  }

  /** The rows are those of the named pieces, each from the last file that names it. */
  lemma {:induction false} RowsAgree(records: map<string, Record>, order: seq<string>, piece: string)
    requires forall s :: s in order ==> s in records
    ensures piece in Rows(records, order) <==> piece != "" && exists k :: LastNaming(records, order, piece, k)
    ensures forall k :: piece != "" && LastNaming(records, order, piece, k) ==>
              piece in Rows(records, order) && Rows(records, order)[piece] == RowOf(records[order[k]])
  {
    if order != [] {
      var front, last := order[..|order| - 1], |order| - 1;
      RowsAgree(records, front, piece);
      if records[order[last]].pieceName == piece {
        assert LastNaming(records, order, piece, last);
        assert forall k :: LastNaming(records, order, piece, k) ==> k == last;
      } else {
        NamedBefore(records, order, piece);
      }
    }
  }

  lemma NamedBefore(records: map<string, Record>, order: seq<string>, piece: string)
    requires order != [] && forall s :: s in order ==> s in records
    requires records[order[|order| - 1]].pieceName != piece
    ensures var front := order[..|order| - 1];
            && (forall k :: LastNaming(records, order, piece, k) ==> LastNaming(records, front, piece, k))
            && (forall k :: LastNaming(records, front, piece, k) ==> LastNaming(records, order, piece, k))
            && (forall k :: 0 <= k < |front| ==> front[k] == order[k])
  {
    var front := order[..|order| - 1];
    assert forall j :: 0 <= j < |front| ==> front[j] == order[j];
  }

  /** What the files say about a piece is what its record says, field by field. */
  ghost predicate Shown(files: map<IndexFile, Index>, piece: string, r: Record) {
    && (forall f :: f in INDEX_FILES ==> f in files)
    && files[ActionsIndex].NameIndex? && piece in files[ActionsIndex].names
    && (forall a :: a in files[ActionsIndex].names[piece] <==> a in r.actions)
    && files[TriggersIndex].NameIndex? && piece in files[TriggersIndex].names
    && (forall a :: a in files[TriggersIndex].names[piece] <==> a in r.triggers)
    && FieldsShown(files[RequiredIndex], piece, r, AsRequired)
    && FieldsShown(files[DropdownIndex], piece, r, AsDropdown)
    && FieldsShown(files[DynamicIndex], piece, r, AsDynamic)
    && files[AuthTypesIndex].AuthIndex? && piece in files[AuthTypesIndex].auths
    && files[AuthTypesIndex].auths[piece].authType == r.auth.authType
    && files[AuthTypesIndex].auths[piece].required == r.auth.required
    && files[SchemaHashes].HashIndex? && piece in files[SchemaHashes].stamps
    && var stamp := files[SchemaHashes].stamps[piece];
       stamp.hash == r.hash && stamp.version == r.version && stamp.syncedAt == r.syncedAt
       && stamp.sourceUrl == r.sourceUrl
  }

  ghost predicate FieldsShown(index: Index, piece: string, r: Record, part: Part) {
    && index.FieldIndex? && piece in index.fields
    && (forall a :: a in index.fields[piece] <==> a in r.actions)
    && forall a, n :: a in r.actions ==> (n in index.fields[piece][a] <==> n in Listed(r.actions[a], part))
  }

  datatype Part = AsRequired | AsDropdown | AsDynamic

  function Listed(e: EntryFields, part: Part): set<string> {
    match part
    case AsRequired => e.required
    case AsDropdown => e.dropdown
    case AsDynamic => e.dynamicFields
  }

  /** The pieces a file is about. */
  function PiecesIn(index: Index): set<string> {
    match index
    case NameIndex(names) => names.Keys
    case FieldIndex(fields) => fields.Keys
    case AuthIndex(auths) => auths.Keys
    case HashIndex(stamps) => stamps.Keys
  }

  /** From the files to the records: each named piece is shown as the last file naming it has it, no other is. */
  lemma IndexesShow(records: map<string, Record>, sort: Sorter, piece: string)
    requires Lists(sort)
    ensures var order := sort(records.Keys);
            forall k :: piece != "" && LastNaming(records, order, piece, k) ==>
              Shown(BuildIndexes(records, sort), piece, records[order[k]])
    ensures forall f :: f in INDEX_FILES ==>
              f in BuildIndexes(records, sort)
              && (piece in PiecesIn(BuildIndexes(records, sort)[f]) <==>
                  piece != "" && exists s :: s in records && records[s].pieceName == piece)
  {
    var order := sort(records.Keys);
    var rows, files := Rows(records, order), BuildIndexes(records, sort);
    RowsAgree(records, order, piece);
    NamedLast(records, order, piece);
    assert AllBuilt(files, rows) by {
      forall f: IndexFile ensures f in files && files[f] == IndexOf(f, rows) { AllFilesListed(f); }
    }
    forall k | piece != "" && LastNaming(records, order, piece, k) ensures Shown(files, piece, records[order[k]]) {
      RowShown(files, rows, piece, records[order[k]]);
    }
    forall f | f in INDEX_FILES
      ensures piece in PiecesIn(files[f]) <==>
              piece != "" && exists s :: s in records && records[s].pieceName == piece
    {
      assert PiecesIn(files[f]) == rows.Keys;
      assert forall s :: s in records <==> s in order;
    }
  }

  ghost predicate AllBuilt(files: map<IndexFile, Index>, rows: map<string, Row>) {
    forall f: IndexFile :: f in files && files[f] == IndexOf(f, rows)
  }

  lemma RowShown(files: map<IndexFile, Index>, rows: map<string, Row>, piece: string, r: Record)
    requires AllBuilt(files, rows) && piece in rows && rows[piece] == RowOf(r)
    ensures Shown(files, piece, r)
  {
    assert files[ActionsIndex] == IndexOf(ActionsIndex, rows) && files[TriggersIndex] == IndexOf(TriggersIndex, rows);
    assert files[AuthTypesIndex] == IndexOf(AuthTypesIndex, rows) && files[SchemaHashes] == IndexOf(SchemaHashes, rows);
    RequiredShown(files, rows, piece, r);
    DropdownShown(files, rows, piece, r);
    DynamicShown(files, rows, piece, r);
  }

  lemma RequiredShown(files: map<IndexFile, Index>, rows: map<string, Row>, piece: string, r: Record)
    requires AllBuilt(files, rows) && piece in rows && rows[piece] == RowOf(r)
    ensures RequiredIndex in files && FieldsShown(files[RequiredIndex], piece, r, AsRequired)
  {
    assert files[RequiredIndex] == IndexOf(RequiredIndex, rows);
  }

  lemma DropdownShown(files: map<IndexFile, Index>, rows: map<string, Row>, piece: string, r: Record)
    requires AllBuilt(files, rows) && piece in rows && rows[piece] == RowOf(r)
    ensures DropdownIndex in files && FieldsShown(files[DropdownIndex], piece, r, AsDropdown)
  {
    assert files[DropdownIndex] == IndexOf(DropdownIndex, rows);
  }

  lemma DynamicShown(files: map<IndexFile, Index>, rows: map<string, Row>, piece: string, r: Record)
    requires AllBuilt(files, rows) && piece in rows && rows[piece] == RowOf(r)
    ensures DynamicIndex in files && FieldsShown(files[DynamicIndex], piece, r, AsDynamic)
  {
    assert files[DynamicIndex] == IndexOf(DynamicIndex, rows);
  }

  /** A piece that is named at all is named last by one file. */
  lemma {:induction false} NamedLast(records: map<string, Record>, order: seq<string>, piece: string)
    requires forall s :: s in order ==> s in records
    ensures (exists k :: LastNaming(records, order, piece, k)) <==>
            exists s :: s in order && records[s].pieceName == piece
  {
    if order != [] {
      var last := |order| - 1;
      NamedLast(records, order[..last], piece);
      assert order == order[..last] + [order[last]];
      if records[order[last]].pieceName == piece {
        assert LastNaming(records, order, piece, last);
      } else {
        NamedBefore(records, order, piece);
      }
    }
  }

  lemma SameIndexSameRow(a: map<string, Row>, b: map<string, Row>, p: string)
    requires forall f :: IndexOf(f, a) == IndexOf(f, b)
    requires p in a
    ensures p in b && a[p] == b[p]
  {
    assert IndexOf(ActionsIndex, a) == IndexOf(ActionsIndex, b);
    assert p in IndexOf(ActionsIndex, a).names && (p in IndexOf(ActionsIndex, b).names ==> p in b);
    assert IndexOf(ActionsIndex, a).names[p] == IndexOf(ActionsIndex, b).names[p];
    assert IndexOf(TriggersIndex, a).names[p] == IndexOf(TriggersIndex, b).names[p];
    assert IndexOf(RequiredIndex, a).fields[p] == IndexOf(RequiredIndex, b).fields[p];
    assert IndexOf(DropdownIndex, a).fields[p] == IndexOf(DropdownIndex, b).fields[p];
    assert IndexOf(DynamicIndex, a).fields[p] == IndexOf(DynamicIndex, b).fields[p];
    assert IndexOf(AuthTypesIndex, a).auths[p] == IndexOf(AuthTypesIndex, b).auths[p];
    assert IndexOf(SchemaHashes, a).stamps[p] == IndexOf(SchemaHashes, b).stamps[p];
  }

  /** Nothing of the rows is lost in the files: equal files mean equal rows. */
  lemma FilesDetermineRows(a: map<string, Row>, b: map<string, Row>)
    ensures Files(a) == Files(b) <==> a == b
  {
    if Files(a) == Files(b) {
      forall f: IndexFile ensures IndexOf(f, a) == IndexOf(f, b) {
        AllFilesListed(f);
        assert Files(a)[f] == Files(b)[f];
      }
      forall p ensures p in a <==> p in b {
        if p in a { SameIndexSameRow(a, b, p); }
        if p in b { SameIndexSameRow(b, a, p); }
      }
      forall p | p in a ensures a[p] == b[p] { SameIndexSameRow(a, b, p); }
    }
  }

  lemma AllFilesListed(f: IndexFile)
    ensures f in INDEX_FILES
  {
    assert INDEX_FILES[0] == ActionsIndex && INDEX_FILES[1] == TriggersIndex && INDEX_FILES[2] == RequiredIndex;
    assert INDEX_FILES[3] == DropdownIndex && INDEX_FILES[4] == DynamicIndex && INDEX_FILES[5] == AuthTypesIndex;
    assert INDEX_FILES[6] == SchemaHashes;
  }

  // ------------------------------------------------------------------
  // Synchronising and validating
  // ------------------------------------------------------------------

  function Unmarked(c: char): string { if c == '/' then "_" else if c == '@' then "" else [c] }

  function WithoutMarks(s: string): string { if s == "" then "" else Unmarked(s[0]) + WithoutMarks(s[1..]) }

  /** A target may be given by its short or its full name. */
  function Canonical(token: string): string {
    var t := Strings.Trim(token);
    if t == "" || Strings.VENDOR_PREFIX <= t then t else Strings.PIECE_PREFIX + t
  }

  function ShortName(piece: string): string {
    if Strings.PIECE_PREFIX <= piece then piece[|Strings.PIECE_PREFIX|..] else WithoutMarks(piece)
  }

  /** The file name of a target. */
  function Slug(token: string): string { ShortName(Canonical(token)) }

  function Slugs(targets: seq<string>): seq<string> {
    seq(|targets|, i requires 0 <= i < |targets| => Slug(targets[i]))
  }

  /** A bare short name is its own file name, and is asked for by the full one. */
  lemma ShortTarget(token: string, t: string, fetch: Fetch)
    requires Strings.StripsTo(token, t) && t != "" && !("@activepieces/" <= t)
    ensures Slug(token) == t && Answer(fetch, token) == fetch("@activepieces/piece-" + t)
  {
    Strings.TrimIff(token, t);
    assert ("@activepieces/piece-" + t)[|"@activepieces/piece-"|..] == t;
    assert Strings.PIECE_PREFIX <= Strings.PIECE_PREFIX + t;
  }

  /** A full name is asked for as it is, and its file drops the vendor's part. */
  lemma FullTarget(token: string, t: string, fetch: Fetch)
    requires Strings.StripsTo(token, "@activepieces/piece-" + t)
    ensures Slug(token) == t && Answer(fetch, token) == fetch("@activepieces/piece-" + t)
  {
    var full := "@activepieces/piece-" + t;
    Strings.TrimIff(token, full);
    assert full[|"@activepieces/piece-"|..] == t;
    assert full[..|"@activepieces/"|] == "@activepieces/";
    assert Strings.VENDOR_PREFIX <= full && Strings.PIECE_PREFIX <= full;
  }

  /** A blank target names nothing. */
  lemma BlankTarget(token: string, fetch: Fetch)
    requires Strings.StripsTo(token, "")
    ensures Slug(token) == "" && Answer(fetch, token) == fetch("")
  {
    Strings.TrimIff(token, "");
  }

  /** Of another vendor's name, at signs go and slashes become underscores. */
  lemma MarksGone(c: char)
    ensures WithoutMarks([c]) == if c == '@' then "" else if c == '/' then "_" else [c]
  {
    assert [c][1..] == "";
  }

  /** Character by character. */
  lemma {:induction false} MarksGoneConcat(s: string, t: string)
    ensures WithoutMarks(s + t) == WithoutMarks(s) + WithoutMarks(t)
  {
    if s == "" {
      assert s + t == t;
    } else {
      MarksGoneConcat(s[1..], t);
      var u := s + t;
      assert u[0] == s[0] && u[1..] == s[1..] + t;
      assert WithoutMarks(u) == Unmarked(s[0]) + WithoutMarks(s[1..] + t);
      Strings.Assoc(Unmarked(s[0]), WithoutMarks(s[1..]), WithoutMarks(t));
    }
  }

  type Fetch = string -> Result<Record, string>

  /** What the fetched targets put on disk, later ones over earlier ones of the same slug. */
  function Fetched(targets: seq<string>, fetch: Fetch): map<string, Record> {
    if targets == [] then map[]
    else
      var front := Fetched(targets[..|targets| - 1], fetch);
      var t := targets[|targets| - 1];
      match Answer(fetch, t)
      case Err(_) => front
      case Ok(r) => front[Slug(t) := r]
  }

  predicate AllFetched(targets: seq<string>, fetch: Fetch) {
    forall i :: 0 <= i < |targets| ==> Answer(fetch, targets[i]).Ok?
  }

  /** The platform's answer about a target. */
  function Answer(fetch: Fetch, token: string): Result<Record, string> { fetch(Canonical(token)) }

  method FetchAll(targets: seq<string>, fetch: Fetch) returns (records: map<string, Record>, failures: nat)
    ensures records == Fetched(targets, fetch)
    ensures failures == 0 <==> AllFetched(targets, fetch)
  {
    records, failures := map[], 0;
    for i := 0 to |targets|
      invariant records == Fetched(targets[..i], fetch)
      invariant failures == 0 <==> AllFetched(targets[..i], fetch)
    {
      var answer := Answer(fetch, targets[i]);
      OneMoreFetched(targets, fetch, i);
      match answer {
        case Err(_) => failures := failures + 1;
        case Ok(r) => records := records[Slug(targets[i]) := r];
      }
    }
    assert targets[..|targets|] == targets;
  }

  lemma OneMoreFetched(targets: seq<string>, fetch: Fetch, i: nat)
    requires i < |targets|
    ensures AllFetched(targets[..i + 1], fetch) <==> AllFetched(targets[..i], fetch) && Answer(fetch, targets[i]).Ok?
    ensures Fetched(targets[..i + 1], fetch) ==
            match Answer(fetch, targets[i])
            case Err(_) => Fetched(targets[..i], fetch)
            case Ok(r) => Fetched(targets[..i], fetch)[Slug(targets[i]) := r]
  {
    var more := targets[..i + 1];
    assert more[..i] == targets[..i] && more[i] == targets[i] && |more| == i + 1;
  }

  /** The k-th target is the last one of that file name that got an answer. */
  predicate LastAnswer(targets: seq<string>, fetch: Fetch, slug: string, k: int) {
    && 0 <= k < |targets| && Answered(targets, fetch, slug, k)
    && forall j :: k < j < |targets| ==> !Answered(targets, fetch, slug, j)
  }

  predicate Answered(targets: seq<string>, fetch: Fetch, slug: string, k: nat)
    requires k < |targets|
  {
    Slug(targets[k]) == slug && Answer(fetch, targets[k]).Ok?
  }

  /** The fetched file of that name holds that answer, and there is none without one. */
  lemma {:induction false} FetchedLast(targets: seq<string>, fetch: Fetch, slug: string)
    ensures slug in Fetched(targets, fetch) <==> exists k :: LastAnswer(targets, fetch, slug, k)
    ensures forall k :: LastAnswer(targets, fetch, slug, k) ==>
              slug in Fetched(targets, fetch) && Ok(Fetched(targets, fetch)[slug]) == Answer(fetch, targets[k])
  {
    if targets != [] {
      var front, last := targets[..|targets| - 1], |targets| - 1;
      FetchedLast(front, fetch, slug);
      FetchedOneMore(targets, fetch, slug);
      if Answered(targets, fetch, slug, last) {
        assert LastAnswer(targets, fetch, slug, last);
        assert forall k :: LastAnswer(targets, fetch, slug, k) ==> k == last;
      } else {
        AnsweredBefore(targets, fetch, slug);
      }
    }
  }

  lemma FetchedOneMore(targets: seq<string>, fetch: Fetch, slug: string)
    requires targets != []
    ensures var front, last := targets[..|targets| - 1], |targets| - 1;
            if Answered(targets, fetch, slug, last)
            then slug in Fetched(targets, fetch) && Ok(Fetched(targets, fetch)[slug]) == Answer(fetch, targets[last])
            else (slug in Fetched(targets, fetch) <==> slug in Fetched(front, fetch))
                 && (slug in Fetched(front, fetch) ==> Fetched(targets, fetch)[slug] == Fetched(front, fetch)[slug])
  {
  }

  lemma AnsweredBefore(targets: seq<string>, fetch: Fetch, slug: string)
    requires targets != [] && !Answered(targets, fetch, slug, |targets| - 1)
    ensures var front := targets[..|targets| - 1];
            && (forall k :: LastAnswer(targets, fetch, slug, k) ==> LastAnswer(front, fetch, slug, k))
            && (forall k :: LastAnswer(front, fetch, slug, k) ==> LastAnswer(targets, fetch, slug, k))
            && (forall k :: 0 <= k < |front| ==> front[k] == targets[k])
  {
    var front := targets[..|targets| - 1];
    assert forall k :: 0 <= k < |front| ==> front[k] == targets[k];
    forall k | 0 <= k < |front| ensures Answered(targets, fetch, slug, k) <==> Answered(front, fetch, slug, k) { }
  }

  /** What validation demands of a piece file. */
  predicate Complete(r: Record) {
    && "pieceName" in r.present && "version" in r.present && "actions" in r.present && "triggers" in r.present
    && "auth" in r.present && "schema_hash" in r.present && "synced_at" in r.present
    && "registry_format_version" in r.present && r.formatVersion == 1
  }

  predicate WellFormed(r: Record) { REQUIRED_KEYS <= r.present && r.formatVersion == FORMAT_VERSION }

  class Disk {
    var hasPieces: bool
    var pieces: map<string, Record>
    var indexes: map<IndexFile, Index>

    ghost predicate AllPresent(slugs: seq<string>)
      reads this
    {
      forall i :: 0 <= i < |slugs| ==> slugs[i] in pieces
    }

    /** What validation asks of the disk. */
    ghost predicate Consistent(targets: seq<string>, sort: Sorter)
      reads this
      requires Lists(sort)
    {
      && hasPieces && pieces != map[]
      && (forall s :: s in pieces ==> WellFormed(pieces[s]))
      && AllPresent(Slugs(targets))
      && forall f :: f in BuildIndexes(pieces, sort) ==> f in indexes && indexes[f] == BuildIndexes(pieces, sort)[f]
    }

    method RecordsWellFormed(sort: Sorter) returns (ok: bool)
      requires Lists(sort)
      ensures ok <==> forall s :: s in pieces ==> WellFormed(pieces[s])
    {
      var slugs := sort(pieces.Keys);
      assert forall s :: s in pieces <==> s in slugs;
      ok := true;
      for i := 0 to |slugs|
        invariant ok <==> forall j :: 0 <= j < i ==> WellFormed(pieces[slugs[j]])
      {
        if !WellFormed(pieces[slugs[i]]) { ok := false; }
      }
    }

    method TargetsPresent(slugs: seq<string>) returns (ok: bool)
      ensures ok <==> AllPresent(slugs)
    {
      ok := true;
      for i := 0 to |slugs|
        invariant ok <==> forall j :: 0 <= j < i ==> slugs[j] in pieces
      {
        if slugs[i] !in pieces { ok := false; }
      }
    }

    method IndexesMatch(expected: map<IndexFile, Index>) returns (ok: bool)
      requires forall f :: f in expected <==> f in INDEX_FILES
      ensures ok <==> forall f :: f in expected ==> f in indexes && indexes[f] == expected[f]
    {
      ok := true;
      for i := 0 to |INDEX_FILES|
        invariant ok <==> forall j :: 0 <= j < i ==>
                            INDEX_FILES[j] in indexes && indexes[INDEX_FILES[j]] == expected[INDEX_FILES[j]]
      {
        if INDEX_FILES[i] !in indexes || indexes[INDEX_FILES[i]] != expected[INDEX_FILES[i]] { ok := false; }
      }
    }

    /** Zero exactly when the disk is consistent; every check is made, so that every problem is logged. */
    method Validate(targets: seq<string>, sort: Sorter) returns (code: int)
      requires Lists(sort)
      ensures code == 0 || code == 1
      ensures code == 0 <==> Consistent(targets, sort)
      ensures code == 0 ==> forall s :: s in pieces ==> Complete(pieces[s])
      ensures (exists s :: s in pieces && !Complete(pieces[s])) ==> code == 1
    {
      if !hasPieces || pieces == map[] { return 1; }
      var wellFormed := RecordsWellFormed(sort);
      var present := TargetsPresent(Slugs(targets));
      var matching := IndexesMatch(BuildIndexes(pieces, sort));
      return if wellFormed && present && matching then 0 else 1;
    }

    /**
     Without a platform configuration, or a sign-in, the code is 2.  Otherwise fetches everything
     before writing anything; then the piece files, then the indexes over all of them.
     */
    method Sync(targets: seq<string>, configured: bool, fetch: Fetch, dryRun: bool, sort: Sorter) returns (code: int)
      requires Lists(sort)
      modifies this
      ensures code == if !configured then 2 else if AllFetched(targets, fetch) then 0 else 1
      ensures code != 0 || dryRun ==> hasPieces == old(hasPieces) && pieces == old(pieces) && indexes == old(indexes)
      ensures code == 0 && !dryRun ==>
                && hasPieces && pieces == old(pieces) + Fetched(targets, fetch)
                && indexes == old(indexes) + BuildIndexes(pieces, sort)
    {
      if !configured { return 2; }
      var records, failures := FetchAll(targets, fetch);
      if failures > 0 { return 1; }
      if dryRun { return 0; }
      hasPieces := true;
      pieces := pieces + records;
      indexes := indexes + BuildIndexes(pieces, sort);
      return 0;
    }
  }

  lemma {:induction false} TargetsFetched(targets: seq<string>, fetch: Fetch, i: nat)
    requires i < |targets| && AllFetched(targets, fetch)
    ensures Slug(targets[i]) in Fetched(targets, fetch)
  {
    if i < |targets| - 1 { TargetsFetched(targets[..|targets| - 1], fetch, i); }
  }

  lemma {:induction false} FetchedWellFormed(targets: seq<string>, fetch: Fetch)
    requires forall t :: t in targets && Answer(fetch, t).Ok? ==> WellFormed(Answer(fetch, t).value)
    ensures forall s :: s in Fetched(targets, fetch) ==> WellFormed(Fetched(targets, fetch)[s])
  {
    if targets != [] { FetchedWellFormed(targets[..|targets| - 1], fetch); }
  }

  /**
   A synchronisation that reports success leaves a registry that validates, provided the files it
   did not fetch were well formed; no index has drifted, whatever it was before.
   */
  method SyncThenValidate(d: Disk, targets: seq<string>, configured: bool, fetch: Fetch, sort: Sorter)
    returns (synced: int, code: int)
    requires Lists(sort)
    requires forall t :: t in targets && Answer(fetch, t).Ok? ==> WellFormed(Answer(fetch, t).value)
    modifies d
    ensures synced == 0 ==>
              forall f :: f in BuildIndexes(d.pieces, sort) ==>
                            f in d.indexes && d.indexes[f] == BuildIndexes(d.pieces, sort)[f]
    ensures synced == 0 && d.pieces != map[] && (forall s :: s in old(d.pieces) ==> WellFormed(old(d.pieces)[s])) ==>
              code == 0
  {
    synced := d.Sync(targets, configured, fetch, false, sort);
    code := d.Validate(targets, sort);
    if synced == 0 {
      FetchedWellFormed(targets, fetch);
      forall i | 0 <= i < |targets| ensures Slug(targets[i]) in d.pieces {
        TargetsFetched(targets, fetch, i);
      }
    }
  }
}
