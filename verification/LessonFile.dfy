/** Lesson files: the frontmatter's fields, the whole text, and reading back what was written. */
module LessonFile {
  import opened Prelude
  import opened Ordering
  import opened LessonScalars
  import opened LessonLines

  datatype Frontmatter = Frontmatter(
    schemaVersion: string,
    id: string,
    name: string,
    description: string,
    kind: string,
    policyProfileScope: seq<string>,
    mtimeMs: real,
    supersedes: Option<string>,
    reviewState: string,
    approvedBy: seq<string>,
    contentHash: string)

  const SCHEMA_VERSION := "1.0.0"
  const REVIEWER_APPROVED := "reviewer_approved"

  // ---- What a frontmatter must satisfy ----------------------------------------------------

  predicate IsAlphanumeric(c: char) {
    'A' <= c <= 'Z' || 'a' <= c <= 'z' || '0' <= c <= '9'
  }

  predicate IsIdChar(c: char) {
    IsAlphanumeric(c) || c == '.' || c == '_' || c == '-'
  }

  predicate IsId(s: string) {
    s != "" && forall c :: c in s ==> IsIdChar(c)
  }

  predicate IsName(s: string) {
    1 <= |s| <= 128 && IsAlphanumeric(s[0]) && forall c :: c in s ==> IsIdChar(c)
  }

  predicate IsHex64(s: string) {
    |s| == 64 && forall c :: c in s ==> '0' <= c <= '9' || 'a' <= c <= 'f'
  }

  predicate IsLessonKind(s: string) {
    s in {"feedback", "project", "reference", "regulatory", "user"}
  }

  /** Sorted, unique and without empty entries. */
  predicate IsCanonicalList(xs: seq<string>) {
    StrictlySorted(xs) && forall x :: x in xs ==> x != ""
  }

  predicate Invariants(fm: Frontmatter) {
    && fm.schemaVersion == SCHEMA_VERSION && IsId(fm.id) && IsName(fm.name) && IsLessonKind(fm.kind)
    && IsCanonicalList(fm.policyProfileScope) && fm.mtimeMs >= 0.0
    && (fm.supersedes.Some? ==> IsHex64(fm.supersedes.value))
    && fm.reviewState == REVIEWER_APPROVED && fm.approvedBy != [] && IsCanonicalList(fm.approvedBy) && IsHex64(fm.contentHash)
  }

  // ---- Fields and their lines ------------------------------------------------------------------

  datatype Field = Field(key: string, value: Value)

  function Texts(xs: seq<string>): seq<Scalar> {
    if xs == [] then [] else [Text(xs[0])] + Texts(xs[1..])
  }

  function FirstFields(fm: Frontmatter): seq<Field> {
    [Field("schemaVersion", One(Text(fm.schemaVersion))), Field("id", One(Text(fm.id))), Field("name", One(Text(fm.name))),
     Field("description", One(Text(fm.description))), Field("type", One(Text(fm.kind))),
     Field("policyProfileScope", Many(Texts(fm.policyProfileScope))), Field("mtimeMs", One(Number(fm.mtimeMs)))]
  }

  function LastFields(fm: Frontmatter): seq<Field> {
    [Field("reviewState", One(Text(fm.reviewState))), Field("approvedBy", Many(Texts(fm.approvedBy))),
     Field("contentHash", One(Text(fm.contentHash)))]
  }

  function SupersedesFields(fm: Frontmatter): seq<Field> {
    if fm.supersedes.Some? then [Field("supersedes", One(Text(fm.supersedes.value)))] else []
  }

  /** The fields in their fixed order; `supersedes` only if present. */
  function ToFields(fm: Frontmatter): seq<Field> {
    FirstFields(fm) + SupersedesFields(fm) + LastFields(fm)
  }

  function ItemLines(n: Numbers, items: seq<Scalar>): seq<string> {
    if items == [] then [] else ["  - " + EncodeScalar(n, items[0])] + ItemLines(n, items[1..])
  }

  function LinesOf(n: Numbers, f: Field): seq<string> {
    match f.value
    case One(v) => [f.key + ": " + EncodeScalar(n, v)]
    case Many(items) => [f.key + ":"] + ItemLines(n, items)
  }

  function AllLines(n: Numbers, fs: seq<Field>): seq<string> {
    if fs == [] then [] else LinesOf(n, fs[0]) + AllLines(n, fs[1..])
  }

  function FrontmatterLines(n: Numbers, fm: Frontmatter): seq<string> {
    [FENCE] + AllLines(n, ToFields(fm)) + [FENCE]
  }

  // ---- Reading the lines of fields back -------------------------------------------------------------

  function Reread(n: Numbers, v: Scalar): Scalar {
    ParseScalar(n, EncodeScalar(n, v))
  }

  function RereadAll(n: Numbers, items: seq<Scalar>): seq<Scalar> {
    if items == [] then [] else [Reread(n, items[0])] + RereadAll(n, items[1..])
  }

  function RereadValue(n: Numbers, v: Value): Value {
    match v
    case One(s) => One(Reread(n, s))
    case Many(items) => Many(RereadAll(n, items))
  }

  /** A scalar whose written form fits on a line. */
  predicate IsPrintable(n: Numbers, v: Scalar) {
    v.Text? || (v.Number? && ShowsWell(n, v.number))
  }

  lemma PrintableIsWritten(n: Numbers, v: Scalar)
    requires IsPrintable(n, v)
    ensures IsWritten(EncodeScalar(n, v))
  {
    if v.Text? {
      EncodedIsWritten(v.text);
    } else {
      NumberIsWritten(n, v.number);
    }
  }

  lemma BareKeyIsTrimmed(key: string)
    requires IsBareKey(key)
    ensures Trim(key) == key && ':' !in key && key[0] != ' ' && key[0] != '\t' && key[0] != '-'
  {
    assert IsKeyChar(key[|key| - 1]) by {
      assert key[|key| - 1] in key;
    }
    TrimmedStays(key);
  }

  lemma {:induction false} TrimKeepsCore(s: string)
    requires s != "" && !IsSpace(s[|s| - 1])
    ensures TrimStart(s) != "" && Trim(s) != ""
  {
    if IsSpace(s[0]) {
      TrimKeepsCore(s[1..]);
    }
  }

  /** What a line with a bare key before its first colon is. */
  lemma ReadsKeyed(n: Numbers, line: string, key: string, remainder: string)
    requires IsBareKey(key) && line == key + [':'] + remainder
    ensures Classify(n, line) == Keyed(key, if Trim(remainder) == "" then ListFollows
                                            else if remainder[0] != ' ' then NoSpace
                                            else Given(ParseScalar(n, remainder[1..])))
    ensures ItemOf(n, line) == None
  {
    BareKeyIsTrimmed(key);
    IndexBehind(key, ':', remainder);
    assert line[..|key|] == key && line[|key| + 1..] == remainder && line[0] == key[0];
  }

  lemma ReadsAssignment(n: Numbers, key: string, written: string)
    requires IsBareKey(key) && IsWritten(written)
    ensures Classify(n, key + ": " + written) == Keyed(key, Given(ParseScalar(n, written)))
    ensures ItemOf(n, key + ": " + written) == None
  {
    var remainder := " " + written;
    assert key + ": " + written == key + [':'] + remainder;
    ReadsKeyed(n, key + ": " + written, key, remainder);
    TrimKeepsCore(remainder);
    assert remainder[1..] == written;
  }

  lemma ReadsHeader(n: Numbers, key: string)
    requires IsBareKey(key)
    ensures Classify(n, key + ":") == Keyed(key, ListFollows)
    ensures ItemOf(n, key + ":") == None
  {
    assert key + ":" == key + [':'] + "";
    ReadsKeyed(n, key + ":", key, "");
  }

  lemma ReadsItem(n: Numbers, written: string)
    ensures ItemOf(n, "  - " + written) == Some(ParseScalar(n, written))
  {
    var line := "  - " + written;
    assert line[..4] == "  - " && line[4..] == written;
  }

  /** The lines of a field and what a reader finds in them. */
  datatype Piece = Piece(key: string, lines: seq<string>, value: Value)

  ghost predicate PieceReads(r: Reader, p: Piece) {
    && p.lines != [] && r.item(p.lines[0]).None?
    && (match p.value
        case One(v) => |p.lines| == 1 && r.classify(p.lines[0]) == Keyed(p.key, Given(v))
        case Many(items) =>
          && |p.lines| == 1 + |items| && r.classify(p.lines[0]) == Keyed(p.key, ListFollows)
          && forall j :: 0 <= j < |items| ==> r.item(p.lines[1..][j]) == Some(items[j]))
  }

  function PieceOf(n: Numbers, f: Field): Piece {
    Piece(f.key, LinesOf(n, f), RereadValue(n, f.value))
  }

  ghost predicate FieldIsPrintable(n: Numbers, f: Field) {
    && IsBareKey(f.key)
    && (match f.value
        case One(v) => IsPrintable(n, v)
        case Many(items) => forall v :: v in items ==> IsPrintable(n, v))
  }

  lemma {:induction false} ItemsRead(n: Numbers, items: seq<Scalar>)
    ensures |ItemLines(n, items)| == |RereadAll(n, items)| == |items|
    ensures forall j :: 0 <= j < |items| ==> ItemOf(n, ItemLines(n, items)[j]) == Some(RereadAll(n, items)[j])
  {
    if items != [] {
      ItemsRead(n, items[1..]);
      ReadsItem(n, EncodeScalar(n, items[0]));
    }
  }

  lemma FieldReads(n: Numbers, f: Field)
    requires FieldIsPrintable(n, f)
    ensures PieceReads(ReaderOf(n), PieceOf(n, f))
  {
    match f.value
    case One(v) =>
      PrintableIsWritten(n, v);
      ReadsAssignment(n, f.key, EncodeScalar(n, v));
    case Many(items) =>
      ReadsHeader(n, f.key);
      ItemsRead(n, items);
      assert LinesOf(n, f)[1..] == ItemLines(n, items);
  }

  // ---- Reading a whole block back -----------------------------------------------------------------------

  function PieceKey(p: Piece): string {
    p.key
  }

  function Flatten(ps: seq<Piece>): seq<string> {
    if ps == [] then [] else ps[0].lines + Flatten(ps[1..])
  }

  function Store(fields: map<string, Value>, ps: seq<Piece>): map<string, Value>
    decreases |ps|
  {
    if ps == [] then fields else Store(fields[ps[0].key := ps[0].value], ps[1..])
  }

  /** `part` stands in `lines` from line `i` on. */
  ghost predicate LinesAt(lines: seq<string>, i: nat, part: seq<string>) {
    i + |part| <= |lines| && forall k {:trigger part[k]} :: 0 <= k < |part| ==> lines[i + k] == part[k]
  }

  lemma LinesAtSplit(lines: seq<string>, i: nat, a: seq<string>, b: seq<string>)
    requires LinesAt(lines, i, a + b)
    ensures LinesAt(lines, i, a) && LinesAt(lines, i + |a|, b)
  {
    forall k | 0 <= k < |a| ensures lines[i + k] == a[k] {
      assert (a + b)[k] == a[k];
    }
    forall k | 0 <= k < |b| ensures lines[i + |a| + k] == b[k] {
      assert (a + b)[|a| + k] == b[k];
    }
  }

  lemma {:induction false} TakesItems(r: Reader, lines: seq<string>, i: nat, items: seq<Scalar>)
    requires i + |items| < |lines| && r.item(lines[i + |items|]).None?
    requires forall k :: 0 <= k < |items| ==> r.item(lines[i..][k]) == Some(items[k])
    ensures TakeItems(r, lines, i) == items
    decreases |items|
  {
    if items != [] {
      assert lines[i..][0] == lines[i];
      forall k | 0 <= k < |items| - 1 ensures r.item(lines[i + 1..][k]) == Some(items[1..][k]) {
        assert lines[i + 1..][k] == lines[i..][k + 1];
      }
      TakesItems(r, lines, i + 1, items[1..]);
    }
  }

  /** One piece: its lines are consumed and its value is stored. */
  lemma ParsePiece(r: Reader, lines: seq<string>, i: nat, p: Piece, fields: map<string, Value>)
    requires PieceReads(r, p) && LinesAt(lines, i, p.lines) && p.key !in fields
    requires i + |p.lines| < |lines| && r.item(lines[i + |p.lines|]).None?
    ensures ParseFrom(r, lines, i, fields) == ParseFrom(r, lines, i + |p.lines|, fields[p.key := p.value])
  {
    assert lines[i] == p.lines[0];
    if p.value.Many? {
      var items := p.value.items;
      forall k | 0 <= k < |items| ensures r.item(lines[i + 1..][k]) == Some(items[k]) {
        assert p.lines[1..][k] == p.lines[k + 1] == lines[i + (k + 1)];
      }
      TakesItems(r, lines, i + 1, items);
    }
  }

  /** Whatever the reader sees next is not a list item. */
  lemma NoItemNext(r: Reader, lines: seq<string>, i: nat, ps: seq<Piece>)
    requires (forall p :: p in ps ==> PieceReads(r, p)) && r.item(FENCE).None?
    requires LinesAt(lines, i, Flatten(ps) + [FENCE])
    ensures i < |lines| && r.item(lines[i]).None?
  {
    var part := Flatten(ps) + [FENCE];
    assert lines[i + 0] == part[0];
    if ps != [] {
      assert ps[0] in ps && part[0] == ps[0].lines[0];
    }
  }

  lemma {:induction false} ParsePieces(r: Reader, lines: seq<string>, i: nat, ps: seq<Piece>, fields: map<string, Value>)
    requires (forall p :: p in ps ==> PieceReads(r, p)) && r.classify(FENCE) == Fence && r.item(FENCE).None?
    requires DistinctKeys(PieceKey, ps) && forall p :: p in ps ==> p.key !in fields
    requires LinesAt(lines, i, Flatten(ps) + [FENCE])
    ensures ParseFrom(r, lines, i, fields) == Ok(Block(Store(fields, ps), i + |Flatten(ps)| + 1))
    decreases |ps|
  {
    if ps == [] {
      assert lines[i + 0] == (Flatten(ps) + [FENCE])[0];
    } else {
      var p, rest := ps[0], ps[1..];
      assert Flatten(ps) + [FENCE] == p.lines + (Flatten(rest) + [FENCE]);
      LinesAtSplit(lines, i, p.lines, Flatten(rest) + [FENCE]);
      NoItemNext(r, lines, i + |p.lines|, rest);
      ParsePiece(r, lines, i, p, fields);
      RestIsFresh(ps, fields);
      ParsePieces(r, lines, i + |p.lines|, rest, fields[p.key := p.value]);
    }
  }

  lemma RestIsFresh(ps: seq<Piece>, fields: map<string, Value>)
    requires ps != [] && DistinctKeys(PieceKey, ps) && forall p :: p in ps ==> p.key !in fields
    ensures DistinctKeys(PieceKey, ps[1..]) && forall p :: p in ps[1..] ==> p.key !in fields[ps[0].key := ps[0].value] && p in ps
  {
    forall p | p in ps[1..] ensures p.key != ps[0].key && p in ps {
      var k :| 0 <= k < |ps| - 1 && ps[1..][k] == p;
      assert ps[k + 1] == p && PieceKey(ps[0]) != PieceKey(ps[k + 1]);
    }
  }

  lemma {:induction false} StoreMeans(fields: map<string, Value>, ps: seq<Piece>)
    requires DistinctKeys(PieceKey, ps) && forall p :: p in ps ==> p.key !in fields
    ensures forall p :: p in ps ==> p.key in Store(fields, ps) && Store(fields, ps)[p.key] == p.value
    ensures forall k :: k in fields ==> k in Store(fields, ps) && Store(fields, ps)[k] == fields[k]
    ensures forall k :: k in Store(fields, ps) ==> k in fields || exists p :: p in ps && p.key == k
    decreases |ps|
  {
    if ps != [] {
      RestIsFresh(ps, fields);
      StoreMeans(fields[ps[0].key := ps[0].value], ps[1..]);
      assert ps == [ps[0]] + ps[1..];
    }
  }

  // ---- From fields to the frontmatter ------------------------------------------------------------------------

  function NeedText(m: map<string, Value>, key: string): Result<string, Fault> {
    if key !in m then Err(MissingField)
    else if m[key].One? && m[key].scalar.Text? then Ok(m[key].scalar.text)
    else Err(WrongType)
  }

  function NeedNumber(m: map<string, Value>, key: string): Result<real, Fault> {
    if key !in m then Err(MissingField)
    else if m[key].One? && m[key].scalar.Number? then Ok(m[key].scalar.number)
    else Err(WrongType)
  }

  predicate AllTexts(items: seq<Scalar>) {
    forall i :: 0 <= i < |items| ==> items[i].Text?
  }

  function TextsOf(items: seq<Scalar>): seq<string>
    requires AllTexts(items)
  {
    if items == [] then [] else [items[0].text] + TextsOf(items[1..])
  }

  function NeedTexts(m: map<string, Value>, key: string): Result<seq<string>, Fault> {
    if key !in m then Err(MissingField)
    else if m[key].Many? && AllTexts(m[key].items) then Ok(TextsOf(m[key].items))
    else Err(WrongType)
  }

  /** The frontmatter from its fields, the first fault winning. */
  function Assemble(
    scopeField: Result<seq<string>, Fault>,
    approvedByField: Result<seq<string>, Fault>,
    supersedesField: Result<Option<string>, Fault>,
    schemaVersionField: Result<string, Fault>,
    idField: Result<string, Fault>,
    nameField: Result<string, Fault>,
    descriptionField: Result<string, Fault>,
    kindField: Result<string, Fault>,
    mtimeField: Result<real, Fault>,
    reviewStateField: Result<string, Fault>,
    contentHashField: Result<string, Fault>): Result<Frontmatter, Fault>
  {
    var scope :- scopeField;
    var approvedBy :- approvedByField;
    var supersedes :- supersedesField;
    var schemaVersion :- schemaVersionField;
    if schemaVersion != SCHEMA_VERSION then Err(UnsupportedSchema)
    else
      var id :- idField;
      var name :- nameField;
      var description :- descriptionField;
      var kind :- kindField;
      var mtimeMs :- mtimeField;
      var reviewState :- reviewStateField;
      var contentHash :- contentHashField;
      var fm := Frontmatter(schemaVersion, id, name, description, kind, scope, mtimeMs, supersedes, reviewState, approvedBy, contentHash);
      if Invariants(fm) then Ok(fm) else Err(InvariantBroken)
  }

  function OptionalText(m: map<string, Value>, key: string): Result<Option<string>, Fault> {
    if key !in m then Ok(None)
    else
      var text :- NeedText(m, key);
      Ok(Some(text))
  }

  function FromFields(m: map<string, Value>): Result<Frontmatter, Fault> {
    Assemble(NeedTexts(m, "policyProfileScope"), NeedTexts(m, "approvedBy"), OptionalText(m, "supersedes"),
             NeedText(m, "schemaVersion"), NeedText(m, "id"), NeedText(m, "name"), NeedText(m, "description"), NeedText(m, "type"),
             NeedNumber(m, "mtimeMs"), NeedText(m, "reviewState"), NeedText(m, "contentHash"))
  }

  // ---- Whole lessons ----------------------------------------------------------------------------------------------

  function Terminated(body: string): string {
    if body != "" && body[|body| - 1] == '\n' then body else body + "\n"
  }

  /** The text of a lesson file. */
  function WriteText(n: Numbers, fm: Frontmatter, body: string): string {
    Join(FrontmatterLines(n, fm) + [""]) + Terminated(body)
  }

  datatype Lesson = Lesson(frontmatter: Frontmatter, body: string)

  function ReadText(n: Numbers, text: string): Result<Lesson, Fault> {
    var lines :- SplitLines(text);
    if lines == [] then Err(MissingOpeningFence)
    else
      var block :- ParseLines(ReaderOf(n), lines);
      var fm :- FromFields(block.fields);
      Ok(Lesson(fm, if block.bodyStart <= |lines| then Join(lines[block.bodyStart..]) else ""))
  }

  // ---- Reading back a lesson that was written ----------------------------------------------------------------------

  function Pieces(n: Numbers, fs: seq<Field>): seq<Piece> {
    if fs == [] then [] else [PieceOf(n, fs[0])] + Pieces(n, fs[1..])
  }

  /** Length and first character tell all the keys apart. */
  function KeyCode(key: string): int {
    if key == "" then 0 else |key| * 0x110000 + key[0] as int
  }

  lemma KeyCodes()
    ensures KeyCode("schemaVersion") == 13 * 0x110000 + 's' as int && KeyCode("id") == 2 * 0x110000 + 'i' as int
    ensures KeyCode("name") == 4 * 0x110000 + 'n' as int && KeyCode("description") == 11 * 0x110000 + 'd' as int
    ensures KeyCode("type") == 4 * 0x110000 + 't' as int && KeyCode("policyProfileScope") == 18 * 0x110000 + 'p' as int
    ensures KeyCode("mtimeMs") == 7 * 0x110000 + 'm' as int && KeyCode("supersedes") == 10 * 0x110000 + 's' as int
    ensures KeyCode("reviewState") == 11 * 0x110000 + 'r' as int && KeyCode("approvedBy") == 10 * 0x110000 + 'a' as int
    ensures KeyCode("contentHash") == 11 * 0x110000 + 'c' as int
  {
  }

  lemma KeysAreBare()
    ensures IsBareKey("schemaVersion") && IsBareKey("id") && IsBareKey("name") && IsBareKey("description")
    ensures IsBareKey("type") && IsBareKey("policyProfileScope") && IsBareKey("mtimeMs") && IsBareKey("supersedes")
    ensures IsBareKey("reviewState") && IsBareKey("approvedBy") && IsBareKey("contentHash")
  {
    LongKeysAreBare();
    ReviewKeysAreBare();
  }

  lemma LongKeysAreBare()
    ensures IsBareKey("schemaVersion") && IsBareKey("description") && IsBareKey("policyProfileScope")
  {
  }

  lemma ReviewKeysAreBare()
    ensures IsBareKey("reviewState") && IsBareKey("approvedBy") && IsBareKey("contentHash") && IsBareKey("supersedes")
  {
  }

  /** The codes of the keys in their fixed order. */
  function Codes(supersedes: bool): seq<int> {
    [KeyCode("schemaVersion"), KeyCode("id"), KeyCode("name"), KeyCode("description"), KeyCode("type"),
     KeyCode("policyProfileScope"), KeyCode("mtimeMs")] +
    (if supersedes then [KeyCode("supersedes")] else []) +
    [KeyCode("reviewState"), KeyCode("approvedBy"), KeyCode("contentHash")]
  }

  lemma CodesAreDistinct(supersedes: bool)
    ensures forall i, j :: 0 <= i < j < |Codes(supersedes)| ==> Codes(supersedes)[i] != Codes(supersedes)[j]
  {
    KeyCodes();
  }

  lemma FieldCodes(fm: Frontmatter)
    ensures var fs, codes := ToFields(fm), Codes(fm.supersedes.Some?);
            |fs| == |codes| && forall i :: 0 <= i < |fs| ==> KeyCode(fs[i].key) == codes[i]
  {
  }

  lemma {:induction false} PieceKeys(n: Numbers, fs: seq<Field>)
    ensures |Pieces(n, fs)| == |fs| && forall i :: 0 <= i < |fs| ==> Pieces(n, fs)[i].key == fs[i].key
  {
    if fs != [] {
      PieceKeys(n, fs[1..]);
    }
  }

  lemma DistinctByCode(ps: seq<Piece>, fs: seq<Field>, codes: seq<int>)
    requires |ps| == |fs| == |codes|
    requires forall i :: 0 <= i < |ps| ==> ps[i].key == fs[i].key
    requires forall i :: 0 <= i < |ps| ==> KeyCode(fs[i].key) == codes[i]
    requires forall i, j :: 0 <= i < j < |codes| ==> codes[i] != codes[j]
    ensures DistinctKeys(PieceKey, ps)
  {
    forall i, j | 0 <= i < j < |ps| ensures PieceKey(ps[i]) != PieceKey(ps[j]) {
      assert codes[i] != codes[j];
    }
  }

  lemma FieldsAreDistinct(n: Numbers, fm: Frontmatter)
    ensures DistinctKeys(PieceKey, Pieces(n, ToFields(fm)))
  {
    PieceKeys(n, ToFields(fm));
    FieldCodes(fm);
    CodesAreDistinct(fm.supersedes.Some?);
    DistinctByCode(Pieces(n, ToFields(fm)), ToFields(fm), Codes(fm.supersedes.Some?));
  }

  lemma {:induction false} TextsArePrintable(n: Numbers, xs: seq<string>)
    ensures forall v :: v in Texts(xs) ==> IsPrintable(n, v)
  {
    if xs != [] {
      TextsArePrintable(n, xs[1..]);
    }
  }

  lemma FieldsArePrintable(n: Numbers, fm: Frontmatter)
    requires ShowsWell(n, fm.mtimeMs)
    ensures forall f :: f in ToFields(fm) ==> FieldIsPrintable(n, f)
  {
    KeysAreBare();
    TextsArePrintable(n, fm.policyProfileScope);
    TextsArePrintable(n, fm.approvedBy);
  }

  lemma {:induction false} PiecesRead(n: Numbers, fs: seq<Field>)
    requires forall f :: f in fs ==> FieldIsPrintable(n, f)
    ensures forall p :: p in Pieces(n, fs) ==> PieceReads(ReaderOf(n), p)
  {
    if fs != [] {
      assert fs[0] in fs && forall f :: f in fs[1..] ==> f in fs;
      FieldReads(n, fs[0]);
      PiecesRead(n, fs[1..]);
    }
  }

  lemma FenceReads(n: Numbers)
    ensures ReaderOf(n).classify(FENCE) == Fence && ReaderOf(n).item(FENCE).None?
  {
    assert FENCE[0] == '-';
  }

  /** The fields read from a written frontmatter, and where its body starts. */
  lemma BlockReads(n: Numbers, fm: Frontmatter, body: seq<string>)
    requires ShowsWell(n, fm.mtimeMs)
    ensures ParseLines(ReaderOf(n), FrontmatterLines(n, fm) + body) ==
            Ok(Block(Store(map[], Pieces(n, ToFields(fm))), |FrontmatterLines(n, fm)|))
  {
    var ps := Pieces(n, ToFields(fm));
    FieldsArePrintable(n, fm);
    PiecesRead(n, ToFields(fm));
    FieldsAreDistinct(n, fm);
    FenceReads(n);
    PiecesFlatten(n, ToFields(fm));
    ParseFenced(ReaderOf(n), ps, body);
  }

  lemma {:induction false} PiecesFlatten(n: Numbers, fs: seq<Field>)
    ensures Flatten(Pieces(n, fs)) == AllLines(n, fs)
  {
    if fs != [] {
      PiecesFlatten(n, fs[1..]);
    }
  }

  lemma ParseFenced(r: Reader, ps: seq<Piece>, body: seq<string>)
    requires (forall p :: p in ps ==> PieceReads(r, p)) && r.classify(FENCE) == Fence && r.item(FENCE).None?
    requires DistinctKeys(PieceKey, ps)
    ensures ParseLines(r, [FENCE] + Flatten(ps) + [FENCE] + body) == Ok(Block(Store(map[], ps), |Flatten(ps)| + 2))
  {
    var lines := [FENCE] + Flatten(ps) + [FENCE] + body;
    var inner := Flatten(ps) + [FENCE];
    forall k | 0 <= k < |inner| ensures lines[1 + k] == inner[k] {
      assert lines == [FENCE] + inner + body;
    }
    ParsePieces(r, lines, 1, ps, map[]);
  }

  lemma {:induction false} FieldsStored(n: Numbers, fs: seq<Field>, f: Field)
    requires DistinctKeys(PieceKey, Pieces(n, fs)) && f in fs
    ensures f.key in Store(map[], Pieces(n, fs)) && Store(map[], Pieces(n, fs))[f.key] == RereadValue(n, f.value)
  {
    PieceIn(n, fs, f);
    StoreMeans(map[], Pieces(n, fs));
  }

  lemma {:induction false} PieceIn(n: Numbers, fs: seq<Field>, f: Field)
    requires f in fs
    ensures PieceOf(n, f) in Pieces(n, fs)
  {
    if f != fs[0] {
      PieceIn(n, fs[1..], f);
    }
  }

  lemma NoSupersedesKey(fm: Frontmatter)
    requires fm.supersedes.None?
    ensures forall f :: f in ToFields(fm) ==> f.key != "supersedes"
  {
    FieldCodes(fm);
    KeyCodes();
    forall f | f in ToFields(fm) ensures KeyCode(f.key) != KeyCode("supersedes") {
      var i :| 0 <= i < |ToFields(fm)| && ToFields(fm)[i] == f;
      assert KeyCode(f.key) == Codes(false)[i];
    }
  }

  lemma {:induction false} PieceFromField(n: Numbers, fs: seq<Field>, p: Piece)
    requires p in Pieces(n, fs)
    ensures exists f :: f in fs && f.key == p.key
  {
    if p == PieceOf(n, fs[0]) {
      assert fs[0] in fs;
    } else {
      PieceFromField(n, fs[1..], p);
      var f :| f in fs[1..] && f.key == p.key;
      assert f in fs;
    }
  }

  lemma SupersedesStored(n: Numbers, fm: Frontmatter)
    requires fm.supersedes.None?
    ensures "supersedes" !in Store(map[], Pieces(n, ToFields(fm)))
  {
    FieldsAreDistinct(n, fm);
    StoreMeans(map[], Pieces(n, ToFields(fm)));
    NoSupersedesKey(fm);
    if p :| p in Pieces(n, ToFields(fm)) && p.key == "supersedes" {
      PieceFromField(n, ToFields(fm), p);
    }
  }

  /** What the reader's fields hold for a written frontmatter. */
  ghost predicate Holds(n: Numbers, fm: Frontmatter, m: map<string, Value>) {
    && HoldsFirst(n, fm, m) && HoldsLast(n, fm, m)
    && ("supersedes" in m <==> fm.supersedes.Some?)
    && (fm.supersedes.Some? ==> HoldsText(n, m, "supersedes", fm.supersedes.value))
  }

  ghost predicate HoldsFirst(n: Numbers, fm: Frontmatter, m: map<string, Value>) {
    && HoldsText(n, m, "schemaVersion", fm.schemaVersion) && HoldsText(n, m, "id", fm.id) && HoldsText(n, m, "name", fm.name)
    && HoldsText(n, m, "description", fm.description) && HoldsText(n, m, "type", fm.kind)
    && HoldsTexts(n, m, "policyProfileScope", fm.policyProfileScope)
    && "mtimeMs" in m && m["mtimeMs"] == One(Reread(n, Number(fm.mtimeMs)))
  }

  ghost predicate HoldsLast(n: Numbers, fm: Frontmatter, m: map<string, Value>) {
    && HoldsText(n, m, "reviewState", fm.reviewState) && HoldsTexts(n, m, "approvedBy", fm.approvedBy)
    && HoldsText(n, m, "contentHash", fm.contentHash)
  }

  ghost predicate HoldsText(n: Numbers, m: map<string, Value>, key: string, text: string) {
    key in m && m[key] == One(Reread(n, Text(text)))
  }

  ghost predicate HoldsTexts(n: Numbers, m: map<string, Value>, key: string, texts: seq<string>) {
    key in m && m[key] == Many(RereadAll(n, Texts(texts)))
  }

  ghost predicate Stored(n: Numbers, fs: seq<Field>, m: map<string, Value>) {
    forall i :: 0 <= i < |fs| ==> fs[i].key in m && m[fs[i].key] == RereadValue(n, fs[i].value)
  }

  lemma FieldsHeld(n: Numbers, fm: Frontmatter)
    ensures Holds(n, fm, Store(map[], Pieces(n, ToFields(fm))))
  {
    var fs, m := ToFields(fm), Store(map[], Pieces(n, ToFields(fm)));
    FieldsAreDistinct(n, fm);
    forall f | f in fs ensures f.key in m && m[f.key] == RereadValue(n, f.value) {
      FieldsStored(n, fs, f);
    }
    FirstHeld(n, fm, m);
    LastHeld(n, fm, m);
    if fm.supersedes.None? {
      SupersedesStored(n, fm);
    } else {
      assert Field("supersedes", One(Text(fm.supersedes.value))) in SupersedesFields(fm);
      assert Field("supersedes", One(Text(fm.supersedes.value))) in fs;
    }
  }

  lemma FirstHeld(n: Numbers, fm: Frontmatter, m: map<string, Value>)
    requires Stored(n, FirstFields(fm), m)
    ensures HoldsFirst(n, fm, m)
  {
    var fs := FirstFields(fm);
    assert fs[0].key == "schemaVersion" && fs[1].key == "id" && fs[2].key == "name" && fs[3].key == "description";
    assert fs[4].key == "type" && fs[5].key == "policyProfileScope" && fs[6].key == "mtimeMs";
  }

  lemma LastHeld(n: Numbers, fm: Frontmatter, m: map<string, Value>)
    requires Stored(n, LastFields(fm), m)
    ensures HoldsLast(n, fm, m)
  {
    var fs := LastFields(fm);
    assert fs[0].key == "reviewState" && fs[1].key == "approvedBy" && fs[2].key == "contentHash";
  }

  ghost predicate NoneMisread(n: Numbers, xs: seq<string>) {
    forall x :: x in xs ==> !IsMisread(n, x)
  }

  lemma NeedsText(n: Numbers, m: map<string, Value>, key: string, text: string)
    requires HoldsText(n, m, key, text)
    ensures NeedText(m, key) == if IsMisread(n, text) then Err(WrongType) else Ok(text)
  {
    TextRoundTrip(n, text);
  }

  lemma {:induction false} ListRoundTrip(n: Numbers, xs: seq<string>)
    ensures AllTexts(RereadAll(n, Texts(xs))) <==> NoneMisread(n, xs)
    ensures NoneMisread(n, xs) ==> TextsOf(RereadAll(n, Texts(xs))) == xs
  {
    if xs != [] {
      ListRoundTrip(n, xs[1..]);
      TextRoundTrip(n, xs[0]);
      var all := RereadAll(n, Texts(xs));
      assert all == [Reread(n, Text(xs[0]))] + RereadAll(n, Texts(xs[1..]));
      AllTextsSplit(all);
      NoneMisreadSplit(n, xs);
    }
  }

  lemma AllTextsSplit(all: seq<Scalar>)
    requires all != []
    ensures AllTexts(all) <==> all[0].Text? && AllTexts(all[1..])
  {
    assert forall i :: 0 < i < |all| ==> all[i] == all[1..][i - 1];
  }

  lemma NoneMisreadSplit(n: Numbers, xs: seq<string>)
    requires xs != []
    ensures NoneMisread(n, xs) <==> !IsMisread(n, xs[0]) && NoneMisread(n, xs[1..])
    ensures xs == [xs[0]] + xs[1..]
  {
    assert xs == [xs[0]] + xs[1..];
  }

  lemma NeedsTexts(n: Numbers, m: map<string, Value>, key: string, xs: seq<string>)
    requires HoldsTexts(n, m, key, xs)
    ensures NoneMisread(n, xs) ==> NeedTexts(m, key) == Ok(xs)
    ensures !NoneMisread(n, xs) ==> NeedTexts(m, key) == Err(WrongType)
  {
    ListRoundTrip(n, xs);
  }

  lemma NotNumeric(n: Numbers, s: string)
    requires s != "" && !('0' <= s[0] <= '9') && s != "true" && s != "false"
    ensures !IsMisread(n, s)
  {
  }

  lemma SchemaVersionIsRead(n: Numbers)
    ensures !IsMisread(n, SCHEMA_VERSION)
  {
    var s := SCHEMA_VERSION;
    assert s[1] == '.' && s[3] == '.' && |s| == 5;
    forall dot: nat ensures !IsDecimalAt(s, dot) {
      DotApart(s, dot, if dot > 1 then 1 else 3);
    }
  }

  lemma DotApart(s: string, dot: nat, other: nat)
    requires other < |s| && s[other] == '.' && other != dot
    ensures !IsDecimalAt(s, dot)
  {
    if dot < |s| {
      if other < dot {
        assert s[..dot][other] == '.';
      } else {
        assert s[dot + 1..][other - dot - 1] == '.';
      }
    }
  }

  lemma ConstantsAreRead(n: Numbers, fm: Frontmatter)
    requires Invariants(fm)
    ensures !IsMisread(n, fm.schemaVersion) && !IsMisread(n, fm.kind) && !IsMisread(n, fm.reviewState)
  {
    SchemaVersionIsRead(n);
    assert "feedback"[0] == 'f' && |"feedback"| == 8 && "project"[0] == 'p' && "reference"[0] == 'r' && "regulatory"[0] == 'r' && "user"[0] == 'u';
    NotNumeric(n, fm.kind);
    assert REVIEWER_APPROVED[0] == 'r';
    NotNumeric(n, fm.reviewState);
  }

  lemma NeedsSupersedes(n: Numbers, m: map<string, Value>, text: Option<string>)
    requires "supersedes" in m <==> text.Some?
    requires text.Some? ==> HoldsText(n, m, "supersedes", text.value)
    ensures OptionalText(m, "supersedes") == if text.Some? && IsMisread(n, text.value) then Err(WrongType) else Ok(text)
  {
    if text.Some? {
      NeedsText(n, m, "supersedes", text.value);
    }
  }

  /** A field as the reader gets it: as written, or not at all. */
  predicate Gets<T(==)>(field: Result<T, Fault>, value: T, readable: bool) {
    if readable then field == Ok(value) else field.Err?
  }

  /** The fields of a written frontmatter give it back exactly if all can be read, and a fault otherwise. */
  lemma AssembleBack(
    fm: Frontmatter,
    scope: Result<seq<string>, Fault>,
    approvedBy: Result<seq<string>, Fault>,
    supersedes: Result<Option<string>, Fault>,
    id: Result<string, Fault>,
    name: Result<string, Fault>,
    description: Result<string, Fault>,
    mtime: Result<real, Fault>,
    contentHash: Result<string, Fault>,
    readable: seq<bool>)
    requires Invariants(fm) && |readable| == 8
    requires Gets(scope, fm.policyProfileScope, readable[0]) && Gets(approvedBy, fm.approvedBy, readable[1])
    requires Gets(supersedes, fm.supersedes, readable[2]) && Gets(id, fm.id, readable[3]) && Gets(name, fm.name, readable[4])
    requires Gets(description, fm.description, readable[5]) && Gets(mtime, fm.mtimeMs, readable[6])
    requires Gets(contentHash, fm.contentHash, readable[7])
    ensures Gets(Assemble(scope, approvedBy, supersedes, Ok(fm.schemaVersion), id, name, description, Ok(fm.kind), mtime,
                          Ok(fm.reviewState), contentHash),
                 fm, false !in readable)
  {
  }

  /** Which fields can be read: scope, reviewers, predecessor, id, name, description, time and hash. */
  ghost function Readables(n: Numbers, fm: Frontmatter): seq<bool> {
    [NoneMisread(n, fm.policyProfileScope), NoneMisread(n, fm.approvedBy),
     fm.supersedes.None? || !IsMisread(n, fm.supersedes.value), !IsMisread(n, fm.id), !IsMisread(n, fm.name),
     !IsMisread(n, fm.description), IsPlainNumber(n.show(fm.mtimeMs)), !IsMisread(n, fm.contentHash)]
  }

  /** All fields of a written frontmatter are in the file in a form that reads as what they are. */
  ghost predicate IsReadable(n: Numbers, fm: Frontmatter) {
    false !in Readables(n, fm)
  }

  ghost predicate GetsLists(m: map<string, Value>, fm: Frontmatter, readable: seq<bool>)
    requires |readable| == 8
  {
    && Gets(NeedTexts(m, "policyProfileScope"), fm.policyProfileScope, readable[0])
    && Gets(NeedTexts(m, "approvedBy"), fm.approvedBy, readable[1])
    && Gets(OptionalText(m, "supersedes"), fm.supersedes, readable[2])
    && Gets(NeedNumber(m, "mtimeMs"), fm.mtimeMs, readable[6])
  }

  ghost predicate GetsTexts(m: map<string, Value>, fm: Frontmatter, readable: seq<bool>)
    requires |readable| == 8
  {
    && Gets(NeedText(m, "id"), fm.id, readable[3])
    && Gets(NeedText(m, "name"), fm.name, readable[4])
    && Gets(NeedText(m, "description"), fm.description, readable[5])
    && Gets(NeedText(m, "contentHash"), fm.contentHash, readable[7])
  }

  ghost predicate GetsConstants(m: map<string, Value>, fm: Frontmatter) {
    && NeedText(m, "schemaVersion") == Ok(fm.schemaVersion) && NeedText(m, "type") == Ok(fm.kind)
    && NeedText(m, "reviewState") == Ok(fm.reviewState)
  }

  lemma TextGot(n: Numbers, m: map<string, Value>, key: string, text: string, readable: bool)
    requires HoldsText(n, m, key, text) && readable == !IsMisread(n, text)
    ensures Gets(NeedText(m, key), text, readable)
  {
    NeedsText(n, m, key, text);
  }

  lemma ListGot(n: Numbers, m: map<string, Value>, key: string, texts: seq<string>, readable: bool)
    requires HoldsTexts(n, m, key, texts) && readable == NoneMisread(n, texts)
    ensures Gets(NeedTexts(m, key), texts, readable)
  {
    NeedsTexts(n, m, key, texts);
  }

  lemma SupersedesGot(n: Numbers, m: map<string, Value>, text: Option<string>, readable: bool)
    requires ("supersedes" in m <==> text.Some?) && (text.Some? ==> HoldsText(n, m, "supersedes", text.value))
    requires readable == (text.None? || !IsMisread(n, text.value))
    ensures Gets(OptionalText(m, "supersedes"), text, readable)
  {
    NeedsSupersedes(n, m, text);
  }

  lemma NumberGot(n: Numbers, m: map<string, Value>, key: string, number: real, readable: bool)
    requires key in m && m[key] == One(Reread(n, Number(number))) && ShowsWell(n, number)
    requires readable == IsPlainNumber(n.show(number))
    ensures Gets(NeedNumber(m, key), number, readable)
  {
    NumberRoundTrip(n, number);
  }

  lemma ListsGot(n: Numbers, fm: Frontmatter, m: map<string, Value>, readable: seq<bool>)
    requires Holds(n, fm, m) && ShowsWell(n, fm.mtimeMs) && |readable| == 8
    requires readable[0] == NoneMisread(n, fm.policyProfileScope) && readable[1] == NoneMisread(n, fm.approvedBy)
    requires readable[2] == (fm.supersedes.None? || !IsMisread(n, fm.supersedes.value))
    requires readable[6] == IsPlainNumber(n.show(fm.mtimeMs))
    ensures GetsLists(m, fm, readable)
  {
    ListGot(n, m, "policyProfileScope", fm.policyProfileScope, readable[0]);
    ListGot(n, m, "approvedBy", fm.approvedBy, readable[1]);
    SupersedesGot(n, m, fm.supersedes, readable[2]);
    NumberGot(n, m, "mtimeMs", fm.mtimeMs, readable[6]);
  }

  lemma TextsGot(n: Numbers, fm: Frontmatter, m: map<string, Value>, readable: seq<bool>)
    requires Holds(n, fm, m) && |readable| == 8
    requires readable[3] == !IsMisread(n, fm.id) && readable[4] == !IsMisread(n, fm.name)
    requires readable[5] == !IsMisread(n, fm.description) && readable[7] == !IsMisread(n, fm.contentHash)
    ensures GetsTexts(m, fm, readable)
  {
    TextGot(n, m, "id", fm.id, readable[3]);
    TextGot(n, m, "name", fm.name, readable[4]);
    TextGot(n, m, "description", fm.description, readable[5]);
    TextGot(n, m, "contentHash", fm.contentHash, readable[7]);
  }

  lemma ConstantsGot(n: Numbers, fm: Frontmatter, m: map<string, Value>)
    requires Holds(n, fm, m) && Invariants(fm)
    ensures GetsConstants(m, fm)
  {
    ConstantsAreRead(n, fm);
    NeedsText(n, m, "schemaVersion", fm.schemaVersion);
    NeedsText(n, m, "type", fm.kind);
    NeedsText(n, m, "reviewState", fm.reviewState);
  }

  lemma FromFieldsGets(fm: Frontmatter, m: map<string, Value>, readable: seq<bool>)
    requires Invariants(fm) && |readable| == 8
    requires GetsLists(m, fm, readable) && GetsTexts(m, fm, readable) && GetsConstants(m, fm)
    ensures Gets(FromFields(m), fm, false !in readable)
  {
    AssembleBack(fm, NeedTexts(m, "policyProfileScope"), NeedTexts(m, "approvedBy"), OptionalText(m, "supersedes"),
                 NeedText(m, "id"), NeedText(m, "name"), NeedText(m, "description"), NeedNumber(m, "mtimeMs"),
                 NeedText(m, "contentHash"), readable);
  }

  /** Each flag says whether its field can be read. */
  ghost predicate AreReadables(n: Numbers, fm: Frontmatter, readable: seq<bool>) {
    && |readable| == 8
    && readable[0] == NoneMisread(n, fm.policyProfileScope) && readable[1] == NoneMisread(n, fm.approvedBy)
    && readable[2] == (fm.supersedes.None? || !IsMisread(n, fm.supersedes.value))
    && readable[3] == !IsMisread(n, fm.id) && readable[4] == !IsMisread(n, fm.name)
    && readable[5] == !IsMisread(n, fm.description) && readable[6] == IsPlainNumber(n.show(fm.mtimeMs))
    && readable[7] == !IsMisread(n, fm.contentHash)
  }

  lemma AllGot(n: Numbers, fm: Frontmatter, m: map<string, Value>, readable: seq<bool>)
    requires Holds(n, fm, m) && Invariants(fm) && ShowsWell(n, fm.mtimeMs) && AreReadables(n, fm, readable)
    ensures GetsLists(m, fm, readable) && GetsTexts(m, fm, readable)
  {
    ListsGot(n, fm, m, readable);
    TextsGot(n, fm, m, readable);
  }

  lemma FromFieldsBack(n: Numbers, fm: Frontmatter, m: map<string, Value>, readable: seq<bool>)
    requires Holds(n, fm, m) && Invariants(fm) && ShowsWell(n, fm.mtimeMs) && AreReadables(n, fm, readable)
    ensures Gets(FromFields(m), fm, false !in readable)
  {
    AllGot(n, fm, m, readable);
    ConstantsGot(n, fm, m);
    FromFieldsGets(fm, m, readable);
  }

  // ---- The text ------------------------------------------------------------------------------------------

  ghost predicate OnOneLine(s: string) {
    '\n' !in s && '\r' !in s
  }

  lemma {:induction false} ItemLinesAreLines(n: Numbers, items: seq<Scalar>)
    requires forall v :: v in items ==> IsPrintable(n, v)
    ensures forall l :: l in ItemLines(n, items) ==> OnOneLine(l)
  {
    if items != [] {
      assert items[0] in items && forall v :: v in items[1..] ==> v in items;
      PrintableIsWritten(n, items[0]);
      ItemLinesAreLines(n, items[1..]);
    }
  }

  lemma FieldLinesAreLines(n: Numbers, f: Field)
    requires FieldIsPrintable(n, f)
    ensures forall l :: l in LinesOf(n, f) ==> OnOneLine(l)
  {
    assert OnOneLine(f.key);
    match f.value
    case One(v) => PrintableIsWritten(n, v);
    case Many(items) => ItemLinesAreLines(n, items);
  }

  lemma {:induction false} AllLinesAreLines(n: Numbers, fs: seq<Field>)
    requires forall f :: f in fs ==> FieldIsPrintable(n, f)
    ensures forall l :: l in AllLines(n, fs) ==> OnOneLine(l)
  {
    if fs != [] {
      assert fs[0] in fs && forall f :: f in fs[1..] ==> f in fs;
      FieldLinesAreLines(n, fs[0]);
      AllLinesAreLines(n, fs[1..]);
    }
  }

  lemma {:induction false} UnlinesHasReturn(lines: seq<string>)
    requires forall l :: l in lines ==> OnOneLine(l)
    ensures '\r' !in Unlines(lines)
  {
    if lines != [] {
      assert lines[0] in lines && forall l :: l in lines[1..] ==> l in lines;
      UnlinesHasReturn(lines[1..]);
    }
  }

  /** The text of a lesson, split into lines, is its frontmatter's lines and its body's. */
  lemma TextSplits(n: Numbers, fm: Frontmatter, body: string)
    requires ShowsWell(n, fm.mtimeMs)
    ensures Split(WriteText(n, fm, body)) == FrontmatterLines(n, fm) + Split(Terminated(body))
    ensures '\r' in WriteText(n, fm, body) <==> '\r' in body
  {
    var lines := FrontmatterLines(n, fm);
    FieldsArePrintable(n, fm);
    AllLinesAreLines(n, ToFields(fm));
    assert forall l :: l in lines ==> OnOneLine(l);
    JoinLast(lines);
    SplitUnlines(lines, Terminated(body));
    UnlinesHasReturn(lines);
  }

  lemma BlockBack(n: Numbers, fm: Frontmatter, readable: seq<bool>)
    requires Invariants(fm) && ShowsWell(n, fm.mtimeMs) && AreReadables(n, fm, readable)
    ensures Gets(FromFields(Store(map[], Pieces(n, ToFields(fm)))), fm, false !in readable)
  {
    FieldsHeld(n, fm);
    FromFieldsBack(n, fm, Store(map[], Pieces(n, ToFields(fm))), readable);
  }

  lemma TextBack(n: Numbers, fm: Frontmatter, body: string, m: map<string, Value>, readable: bool)
    requires ShowsWell(n, fm.mtimeMs) && m == Store(map[], Pieces(n, ToFields(fm)))
    requires Gets(FromFields(m), fm, readable)
    ensures Gets(ReadText(n, WriteText(n, fm, body)), Lesson(fm, Terminated(body)), readable && '\r' !in body)
  {
    TextSplits(n, fm, body);
    BlockReads(n, fm, Split(Terminated(body)));
    ReadStep(n, WriteText(n, fm, body), FrontmatterLines(n, fm), Terminated(body), m);
  }

  lemma LessonBack(n: Numbers, fm: Frontmatter, body: string, readable: seq<bool>)
    requires Invariants(fm) && ShowsWell(n, fm.mtimeMs) && AreReadables(n, fm, readable)
    ensures Gets(ReadText(n, WriteText(n, fm, body)), Lesson(fm, Terminated(body)), false !in readable && '\r' !in body)
  {
    BlockBack(n, fm, readable);
    TextBack(n, fm, body, Store(map[], Pieces(n, ToFields(fm))), false !in readable);
  }

  /**
   * A lesson that was written reads back with every field and with its body ended by a line break, exactly if its
   * fields are readable and its body is free of carriage returns. Otherwise reading fails; it never gives
   * anything else.
   */
  lemma ReadBackWhatWasWritten(n: Numbers, fm: Frontmatter, body: string)
    requires Invariants(fm) && ShowsWell(n, fm.mtimeMs)
    ensures Gets(ReadText(n, WriteText(n, fm, body)), Lesson(fm, Terminated(body)), IsReadable(n, fm) && '\r' !in body)
  {
    LessonBack(n, fm, body, Readables(n, fm));
  }

  /** An id of digits is accepted when writing, and the lesson cannot be read again, whatever its body is. */
  lemma AcceptedButUnreadable(n: Numbers, fm: Frontmatter, body: string)
    requires n.read("123").Some? && Invariants(fm) && ShowsWell(n, fm.mtimeMs)
    ensures var renamed := fm.(id := "123");
            Invariants(renamed) && ReadText(n, WriteText(n, renamed, body)).Err?
  {
    DigitsAreMisread(n);
    assert !Readables(n, fm.(id := "123"))[3];
    ReadBackWhatWasWritten(n, fm.(id := "123"), body);
  }

  lemma DigitsAreMisread(n: Numbers)
    requires n.read("123").Some?
    ensures IsId("123") && IsMisread(n, "123")
  {
    assert forall i :: 0 <= i < |"123"| ==> "123"[i] in {'1', '2', '3'};
  }

  lemma ReadStep(n: Numbers, text: string, lines: seq<string>, body: string, m: map<string, Value>)
    requires Split(text) == lines + Split(body)
    requires ParseLines(ReaderOf(n), Split(text)) == Ok(Block(m, |lines|))
    ensures ReadText(n, text) ==
            if '\r' in text then Err(CarriageReturn)
            else if FromFields(m).Ok? then Ok(Lesson(FromFields(m).value, body)) else Err(FromFields(m).error)
  {
    assert (lines + Split(body))[|lines|..] == Split(body);
    JoinUndoesSplit(body);
  }

  // ---- Writing and reading as the program does them ------------------------------------------------------

  method EmitField(n: Numbers, f: Field) returns (lines: seq<string>)
    ensures lines == LinesOf(n, f)
  {
    match f.value {
      case One(v) =>
        return [f.key + ": " + EncodeScalar(n, v)];
      case Many(items) =>
        lines := [f.key + ":"];
        for j := 0 to |items|
          invariant lines + ItemLines(n, items[j..]) == [f.key + ":"] + ItemLines(n, items)
        {
          assert items[j..][0] == items[j] && items[j..][1..] == items[j + 1..];
          lines := lines + ["  - " + EncodeScalar(n, items[j])];
        }
    }
  }

  method EmitFields(n: Numbers, fields: seq<Field>) returns (lines: seq<string>)
    ensures lines == AllLines(n, fields)
  {
    lines := [];
    for i := 0 to |fields|
      invariant lines + AllLines(n, fields[i..]) == AllLines(n, fields)
    {
      var more := EmitField(n, fields[i]);
      EmitStep(n, fields, i, lines);
      lines := lines + more;
    }
  }

  lemma EmitStep(n: Numbers, fields: seq<Field>, i: nat, lines: seq<string>)
    requires i < |fields|
    ensures lines + AllLines(n, fields[i..]) == (lines + LinesOf(n, fields[i])) + AllLines(n, fields[i + 1..])
  {
    assert fields[i..][0] == fields[i] && fields[i..][1..] == fields[i + 1..];
  }

  method SerializeFrontmatter(n: Numbers, fm: Frontmatter) returns (r: Result<string, Fault>)
    ensures r == if Invariants(fm) then Ok(Unlines(FrontmatterLines(n, fm))) else Err(InvariantBroken)
  {
    if !Invariants(fm) {
      return Err(InvariantBroken);
    }
    var lines := EmitFields(n, ToFields(fm));
    lines := [FENCE] + lines + [FENCE];
    JoinLast(lines);
    lines := lines + [""];
    return Ok(Join(lines));
  }

  /** The text that a write puts into the file; raises for a frontmatter that breaks an invariant. */
  method ComposeLesson(n: Numbers, fm: Frontmatter, body: string) returns (r: Result<string, Fault>)
    ensures r == if Invariants(fm) then Ok(WriteText(n, fm, body)) else Err(InvariantBroken)
  {
    var text := SerializeFrontmatter(n, fm);
    if text.Err? {
      return text;
    }
    JoinLast(FrontmatterLines(n, fm));
    return Ok(text.value + (if body != "" && body[|body| - 1] == '\n' then body else body + "\n"));
  }

  method ReadLesson(n: Numbers, text: string) returns (r: Result<Lesson, Fault>)
    ensures r == ReadText(n, text)
  {
    var block := ParseBlock(n, text);
    if block.Err? {
      return Err(block.error);
    }
    var fm := FromFields(block.value.fields);
    if fm.Err? {
      return Err(fm.error);
    }
    var lines := Split(text);
    return Ok(Lesson(fm.value, if block.value.bodyStart <= |lines| then Join(lines[block.value.bodyStart..]) else ""));
  }
}
