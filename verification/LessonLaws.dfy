/** What a lesson file consists of, line by line, and what a reader takes from it. */
module LessonLaws {
  import opened Prelude
  import opened Ordering
  import opened LessonScalars
  import opened LessonLines
  import opened LessonFile

  // ---- The lines that are written -----------------------------------------------------------------

  function Items(xs: seq<string>): seq<string> {
    if xs == [] then [] else ["  - " + EncodeText(xs[0])] + Items(xs[1..])
  }

  function Supersedes(hash: Option<string>): seq<string> {
    if hash.None? then [] else [Line("supersedes", EncodeText(hash.value))]
  }

  function Line(key: string, written: string): string {
    key + ": " + written
  }

  function HeadLines(fm: Frontmatter): seq<string> {
    [Line("schemaVersion", EncodeText(fm.schemaVersion)), Line("id", EncodeText(fm.id)), Line("name", EncodeText(fm.name)),
     Line("description", EncodeText(fm.description)), Line("type", EncodeText(fm.kind))]
  }

  /** The frontmatter as it stands in the file. */
  function LinesOfLesson(n: Numbers, fm: Frontmatter): seq<string> {
    ["---"] + HeadLines(fm) +
    ["policyProfileScope:"] + Items(fm.policyProfileScope) +
    [Line("mtimeMs", n.show(fm.mtimeMs))] + Supersedes(fm.supersedes) +
    [Line("reviewState", EncodeText(fm.reviewState))] +
    ["approvedBy:"] + Items(fm.approvedBy) +
    [Line("contentHash", EncodeText(fm.contentHash))] + ["---"]
  }

  lemma {:induction false} ItemsAre(n: Numbers, xs: seq<string>)
    ensures ItemLines(n, Texts(xs)) == Items(xs)
  {
    if xs != [] {
      ItemsAre(n, xs[1..]);
      assert Texts(xs)[1..] == Texts(xs[1..]);
    }
  }

  lemma LinesFirst(n: Numbers, f: Field, fs: seq<Field>)
    ensures AllLines(n, Before(f, fs)) == LinesOf(n, f) + AllLines(n, fs)
  {
    assert ([f] + fs)[1..] == fs;
  }

  function Before(f: Field, fs: seq<Field>): seq<Field> {
    [f] + fs
  }

  /** `lines` goes through the fields one by one. */
  ghost predicate OneByOne(lines: seq<Field> -> seq<string>, of: Field -> seq<string>) {
    lines([]) == [] && forall f, fs :: lines(Before(f, fs)) == of(f) + lines(fs)
  }

  lemma {:induction false} Concat(lines: seq<Field> -> seq<string>, of: Field -> seq<string>, fs: seq<Field>, gs: seq<Field>)
    requires OneByOne(lines, of)
    ensures lines(fs + gs) == lines(fs) + lines(gs)
  {
    if fs == [] {
      assert fs + gs == gs;
    } else {
      Concat(lines, of, fs[1..], gs);
      assert fs == Before(fs[0], fs[1..]) && fs + gs == Before(fs[0], fs[1..] + gs);
    }
  }

  lemma AllLinesConcat(n: Numbers, fs: seq<Field>, gs: seq<Field>)
    ensures AllLines(n, fs + gs) == AllLines(n, fs) + AllLines(n, gs)
  {
    var lines, of := (xs: seq<Field>) => AllLines(n, xs), (f: Field) => LinesOf(n, f);
    forall f, xs ensures lines(Before(f, xs)) == of(f) + lines(xs) {
      LinesFirst(n, f, xs);
    }
    Concat(lines, of, fs, gs);
  }

  lemma OneText(n: Numbers, key: string, text: string)
    ensures AllLines(n, [Field(key, One(Text(text)))]) == [Line(key, EncodeText(text))]
  {
    var f := Field(key, One(Text(text)));
    assert [f][1..] == [];
  }

  lemma OneNumber(n: Numbers, key: string, m: real)
    ensures AllLines(n, [Field(key, One(Number(m)))]) == [Line(key, n.show(m))]
  {
    var f := Field(key, One(Number(m)));
    assert [f][1..] == [];
  }

  lemma OneList(n: Numbers, key: string, xs: seq<string>)
    ensures AllLines(n, [Field(key, Many(Texts(xs)))]) == [key + ":"] + Items(xs)
  {
    var f := Field(key, Many(Texts(xs)));
    ItemsAre(n, xs);
    assert [f][1..] == [];
  }

  /** `lines` are those of `fs`. */
  ghost predicate Gives(n: Numbers, fs: seq<Field>, lines: seq<string>) {
    AllLines(n, fs) == lines
  }

  lemma Both(n: Numbers, fs: seq<Field>, gs: seq<Field>, a: seq<string>, b: seq<string>)
    requires Gives(n, fs, a) && Gives(n, gs, b)
    ensures Gives(n, fs + gs, a + b)
  {
    AllLinesConcat(n, fs, gs);
  }

  lemma TextGives(n: Numbers, key: string, text: string)
    ensures Gives(n, [Field(key, One(Text(text)))], [Line(key, EncodeText(text))])
  {
    OneText(n, key, text);
  }

  lemma TwoTexts(n: Numbers, a: string, b: string, t: string, u: string)
    ensures Gives(n, [Field(a, One(Text(t))), Field(b, One(Text(u)))], [Line(a, EncodeText(t)), Line(b, EncodeText(u))])
  {
    TextGives(n, a, t);
    TextGives(n, b, u);
    Both(n, [Field(a, One(Text(t)))], [Field(b, One(Text(u)))], [Line(a, EncodeText(t))], [Line(b, EncodeText(u))]);
  }

  lemma FiveTexts(n: Numbers, a: string, b: string, c: string, d: string, e: string,
                  t: string, u: string, v: string, w: string, x: string)
    ensures Gives(n, [Field(a, One(Text(t))), Field(b, One(Text(u))), Field(c, One(Text(v))), Field(d, One(Text(w))),
                      Field(e, One(Text(x)))],
                  [Line(a, EncodeText(t)), Line(b, EncodeText(u)), Line(c, EncodeText(v)), Line(d, EncodeText(w)), Line(e, EncodeText(x))])
  {
    TwoTexts(n, a, b, t, u);
    TwoTexts(n, c, d, v, w);
    TextGives(n, e, x);
    var p, i := [Field(a, One(Text(t))), Field(b, One(Text(u)))], [Line(a, EncodeText(t)), Line(b, EncodeText(u))];
    var q, j := [Field(c, One(Text(v))), Field(d, One(Text(w)))], [Line(c, EncodeText(v)), Line(d, EncodeText(w))];
    var r, k := [Field(e, One(Text(x)))], [Line(e, EncodeText(x))];
    Both(n, p, q, i, j);
    Both(n, p + q, r, i + j, k);
    assert p + q + r == [p[0], p[1], q[0], q[1], r[0]] && i + j + k == [i[0], i[1], j[0], j[1], k[0]];
  }

  lemma FirstAre(n: Numbers, fm: Frontmatter)
    ensures Gives(n, FirstFields(fm),
                  HeadLines(fm) + (["policyProfileScope" + ":"] + Items(fm.policyProfileScope)) + [Line("mtimeMs", n.show(fm.mtimeMs))])
  {
    var scope, time := Field("policyProfileScope", Many(Texts(fm.policyProfileScope))), Field("mtimeMs", One(Number(fm.mtimeMs)));
    var head := FirstFields(fm)[..5];
    FiveTexts(n, "schemaVersion", "id", "name", "description", "type", fm.schemaVersion, fm.id, fm.name, fm.description, fm.kind);
    assert head == [Field("schemaVersion", One(Text(fm.schemaVersion))), Field("id", One(Text(fm.id))), Field("name", One(Text(fm.name))),
                    Field("description", One(Text(fm.description))), Field("type", One(Text(fm.kind)))];
    OneList(n, "policyProfileScope", fm.policyProfileScope);
    OneNumber(n, "mtimeMs", fm.mtimeMs);
    Both(n, head, [scope], HeadLines(fm), ["policyProfileScope" + ":"] + Items(fm.policyProfileScope));
    Both(n, head + [scope], [time], HeadLines(fm) + (["policyProfileScope" + ":"] + Items(fm.policyProfileScope)),
         [Line("mtimeMs", n.show(fm.mtimeMs))]);
    assert FirstFields(fm) == head + [scope] + [time];
  }

  lemma LastAre(n: Numbers, fm: Frontmatter)
    ensures Gives(n, LastFields(fm),
                  [Line("reviewState", EncodeText(fm.reviewState))] + (["approvedBy" + ":"] + Items(fm.approvedBy)) +
                  [Line("contentHash", EncodeText(fm.contentHash))])
  {
    TextListText(n, "reviewState", fm.reviewState, "approvedBy", fm.approvedBy, "contentHash", fm.contentHash);
  }

  lemma TextListText(n: Numbers, a: string, t: string, b: string, xs: seq<string>, c: string, v: string)
    ensures Gives(n, [Field(a, One(Text(t))), Field(b, Many(Texts(xs))), Field(c, One(Text(v)))],
                  [Line(a, EncodeText(t))] + ([b + ":"] + Items(xs)) + [Line(c, EncodeText(v))])
  {
    var p, q, r := [Field(a, One(Text(t)))], [Field(b, Many(Texts(xs)))], [Field(c, One(Text(v)))];
    TextGives(n, a, t);
    OneList(n, b, xs);
    TextGives(n, c, v);
    Both(n, p, q, [Line(a, EncodeText(t))], [b + ":"] + Items(xs));
    Both(n, p + q, r, [Line(a, EncodeText(t))] + ([b + ":"] + Items(xs)), [Line(c, EncodeText(v))]);
    assert p + q + r == [p[0], q[0], r[0]];
  }

  lemma SupersedesAre(n: Numbers, fm: Frontmatter)
    ensures Gives(n, SupersedesFields(fm), Supersedes(fm.supersedes))
  {
    if fm.supersedes.Some? {
      OneText(n, "supersedes", fm.supersedes.value);
    }
  }

  lemma FieldsGive(n: Numbers, fm: Frontmatter, a: seq<string>, b: seq<string>, c: seq<string>)
    requires Gives(n, FirstFields(fm), a) && Gives(n, SupersedesFields(fm), b) && Gives(n, LastFields(fm), c)
    ensures FrontmatterLines(n, fm) == ["---"] + (a + b + c) + ["---"]
  {
    Both(n, FirstFields(fm), SupersedesFields(fm), a, b);
    Both(n, FirstFields(fm) + SupersedesFields(fm), LastFields(fm), a + b, c);
  }

  /** The frontmatter's lines, one by one. */
  lemma FrontmatterIs(n: Numbers, fm: Frontmatter)
    ensures FrontmatterLines(n, fm) == LinesOfLesson(n, fm)
  {
    FirstAre(n, fm);
    SupersedesAre(n, fm);
    LastAre(n, fm);
    var scope, time := ["policyProfileScope:"] + Items(fm.policyProfileScope), [Line("mtimeMs", n.show(fm.mtimeMs))];
    var state, list, hash :=
      [Line("reviewState", EncodeText(fm.reviewState))], ["approvedBy:"] + Items(fm.approvedBy),
      [Line("contentHash", EncodeText(fm.contentHash))];
    assert "policyProfileScope" + ":" == "policyProfileScope:" && "approvedBy" + ":" == "approvedBy:";
    FieldsGive(n, fm, HeadLines(fm) + scope + time, Supersedes(fm.supersedes), state + list + hash);
    Regroup(["---"], HeadLines(fm), "policyProfileScope:", Items(fm.policyProfileScope), time, Supersedes(fm.supersedes),
            state, "approvedBy:", Items(fm.approvedBy), hash);
  }

  lemma Regroup<T>(fence: seq<T>, head: seq<T>, scope: T, scopes: seq<T>, time: seq<T>, past: seq<T>, state: seq<T>,
                   list: T, names: seq<T>, hash: seq<T>)
    ensures fence + (head + ([scope] + scopes) + time + past + (state + ([list] + names) + hash)) + fence ==
            fence + head + [scope] + scopes + time + past + state + [list] + names + hash + fence
  {
  }

  /** The text of a lesson file: the lines of its frontmatter, and its body with a line end. */
  lemma WrittenTextIs(n: Numbers, fm: Frontmatter, body: string)
    ensures WriteText(n, fm, body) ==
            Unlines(LinesOfLesson(n, fm)) + body + (if body != "" && body[|body| - 1] == '\n' then "" else "\n")
  {
    FrontmatterIs(n, fm);
    JoinLast(FrontmatterLines(n, fm));
  }

  // ---- The fields that are read -----------------------------------------------------------------------

  ghost predicate HasText(m: map<string, Value>, key: string, text: string) {
    key in m && m[key] == One(Text(text))
  }

  ghost predicate HasNumber(m: map<string, Value>, key: string, number: real) {
    key in m && m[key] == One(Number(number))
  }

  ghost predicate HasList(m: map<string, Value>, key: string, texts: seq<string>) {
    && key in m && m[key].Many? && |m[key].items| == |texts|
    && forall i :: 0 <= i < |texts| ==> m[key].items[i] == Text(texts[i])
  }

  ghost predicate HasOptional(m: map<string, Value>, key: string, text: Option<string>) {
    if text.Some? then HasText(m, key, text.value) else key !in m
  }

  ghost predicate IsLetterOrDigit(c: char) {
    'A' <= c <= 'Z' || 'a' <= c <= 'z' || '0' <= c <= '9'
  }

  ghost predicate IsIdentifier(s: string) {
    s != "" && forall i :: 0 <= i < |s| ==> IsLetterOrDigit(s[i]) || s[i] in "._-"
  }

  ghost predicate IsDigest(s: string) {
    |s| == 64 && forall i :: 0 <= i < |s| ==> s[i] in "0123456789abcdef"
  }

  ghost predicate IsListing(xs: seq<string>) {
    "" !in xs && forall i :: 0 <= i < |xs| - 1 ==> Less(xs[i], xs[i + 1])
  }

  /** What every lesson satisfies, in a file or on its way into one. */
  ghost predicate IsLesson(fm: Frontmatter) {
    && fm.schemaVersion == "1.0.0" && fm.reviewState == "reviewer_approved"
    && fm.kind in {"feedback", "project", "reference", "regulatory", "user"}
    && IsIdentifier(fm.id) && IsIdentifier(fm.name) && |fm.name| <= 128 && IsLetterOrDigit(fm.name[0])
    && IsListing(fm.policyProfileScope) && IsListing(fm.approvedBy) && |fm.approvedBy| >= 1
    && fm.mtimeMs >= 0.0 && IsDigest(fm.contentHash) && (fm.supersedes.Some? ==> IsDigest(fm.supersedes.value))
  }

  lemma ListingMeans(xs: seq<string>)
    ensures IsCanonicalList(xs) <==> IsListing(xs)
  {
    if IsListing(xs) {
      forall i, j | 0 <= i < j < |xs| ensures Less(xs[i], xs[j]) {
        NeighboursSuffice(xs, i, j);
      }
    }
  }

  lemma DigestMeans(s: string)
    ensures IsHex64(s) <==> IsDigest(s)
  {
    HexDigits();
    assert forall i :: 0 <= i < |s| ==> s[i] in s;
  }

  lemma HexDigits()
    ensures forall c :: ('0' <= c <= '9' || 'a' <= c <= 'f') <==> c in "0123456789abcdef"
  {
    forall c | '0' <= c <= '9' || 'a' <= c <= 'f' ensures c in "0123456789abcdef" {
      var k := if c <= '9' then c as int - '0' as int else c as int - 'a' as int + 10;
      assert "0123456789abcdef"[k] == c;
    }
  }

  lemma IdentifierMeans(s: string)
    ensures IsId(s) <==> IsIdentifier(s)
    ensures IsName(s) <==> IsIdentifier(s) && |s| <= 128 && IsLetterOrDigit(s[0])
  {
    assert forall c :: IsIdChar(c) <==> IsLetterOrDigit(c) || c in "._-";
    assert forall i :: 0 <= i < |s| ==> s[i] in s;
  }

  lemma LessonIff(fm: Frontmatter)
    ensures Invariants(fm) <==> IsLesson(fm)
  {
    IdentifierMeans(fm.id);
    IdentifierMeans(fm.name);
    ListingMeans(fm.policyProfileScope);
    ListingMeans(fm.approvedBy);
    DigestMeans(fm.contentHash);
    if fm.supersedes.Some? {
      DigestMeans(fm.supersedes.value);
    }
  }

  lemma {:induction false} TextsOfAre(items: seq<Scalar>)
    requires AllTexts(items)
    ensures |TextsOf(items)| == |items| && forall i :: 0 <= i < |items| ==> items[i] == Text(TextsOf(items)[i])
  {
    if items != [] {
      TextsOfAre(items[1..]);
    }
  }

  lemma NeedMeans(m: map<string, Value>, key: string)
    ensures forall t :: NeedText(m, key) == Ok(t) <==> HasText(m, key, t)
    ensures forall x :: NeedNumber(m, key) == Ok(x) <==> HasNumber(m, key, x)
    ensures forall o :: OptionalText(m, key) == Ok(o) <==> HasOptional(m, key, o)
  {
  }

  lemma NeedListMeans(m: map<string, Value>, key: string, texts: seq<string>)
    ensures NeedTexts(m, key) == Ok(texts) <==> HasList(m, key, texts)
  {
    if key in m && m[key].Many? && AllTexts(m[key].items) {
      TextsOfAre(m[key].items);
      if HasList(m, key, texts) {
        assert forall i :: 0 <= i < |texts| ==> m[key].items[i] == Text(texts[i]);
        assert TextsOf(m[key].items) == texts;
      }
    }
    if HasList(m, key, texts) {
      assert AllTexts(m[key].items);
    }
  }

  lemma AssembledIff(
    fm: Frontmatter,
    scope: Result<seq<string>, Fault>,
    approvedBy: Result<seq<string>, Fault>,
    supersedes: Result<Option<string>, Fault>,
    version: Result<string, Fault>,
    id: Result<string, Fault>,
    name: Result<string, Fault>,
    description: Result<string, Fault>,
    kind: Result<string, Fault>,
    mtime: Result<real, Fault>,
    state: Result<string, Fault>,
    contentHash: Result<string, Fault>)
    ensures Assemble(scope, approvedBy, supersedes, version, id, name, description, kind, mtime, state, contentHash) == Ok(fm) <==>
              && scope == Ok(fm.policyProfileScope) && approvedBy == Ok(fm.approvedBy) && supersedes == Ok(fm.supersedes)
              && version == Ok(fm.schemaVersion) && id == Ok(fm.id) && name == Ok(fm.name) && description == Ok(fm.description)
              && kind == Ok(fm.kind) && mtime == Ok(fm.mtimeMs) && state == Ok(fm.reviewState)
              && contentHash == Ok(fm.contentHash) && IsLesson(fm)
  {
    LessonIff(fm);
  }

  /** Each field of the frontmatter stands under its key. */
  ghost predicate HoldsFields(m: map<string, Value>, fm: Frontmatter) {
    && HasText(m, "schemaVersion", fm.schemaVersion) && HasText(m, "id", fm.id) && HasText(m, "name", fm.name)
    && HasText(m, "description", fm.description) && HasText(m, "type", fm.kind)
    && HasList(m, "policyProfileScope", fm.policyProfileScope) && HasNumber(m, "mtimeMs", fm.mtimeMs)
    && HasOptional(m, "supersedes", fm.supersedes) && HasText(m, "reviewState", fm.reviewState)
    && HasList(m, "approvedBy", fm.approvedBy) && HasText(m, "contentHash", fm.contentHash)
  }

  /** A frontmatter is read from exactly the blocks that hold its fields under their keys; other keys are ignored. */
  lemma FromFieldsIff(m: map<string, Value>, fm: Frontmatter)
    ensures FromFields(m) == Ok(fm) <==> HoldsFields(m, fm) && IsLesson(fm)
  {
    NeedListMeans(m, "policyProfileScope", fm.policyProfileScope);
    NeedListMeans(m, "approvedBy", fm.approvedBy);
    NeedMeans(m, "supersedes");
    NeedMeans(m, "schemaVersion");
    NeedMeans(m, "id");
    NeedMeans(m, "name");
    NeedMeans(m, "description");
    NeedMeans(m, "type");
    NeedMeans(m, "mtimeMs");
    NeedMeans(m, "reviewState");
    NeedMeans(m, "contentHash");
    AssembledIff(fm, NeedTexts(m, "policyProfileScope"), NeedTexts(m, "approvedBy"), OptionalText(m, "supersedes"),
                 NeedText(m, "schemaVersion"), NeedText(m, "id"), NeedText(m, "name"), NeedText(m, "description"),
                 NeedText(m, "type"), NeedNumber(m, "mtimeMs"), NeedText(m, "reviewState"), NeedText(m, "contentHash"));
  }
}
