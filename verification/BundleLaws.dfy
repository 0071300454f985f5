/** What a reader finds in the archive of a bundle: the bundle's own texts under their names. */
module BundleLaws {
  import opened Prelude
  import opened Ordering
  import opened Crc32
  import opened ZipArchive
  import opened MarkdownBundle

  /** `f` is a file of that name with that text. */
  ghost predicate Holds(c: Codec, f: ZipArchive.File, name: string, text: string) {
    f.name == c.utf8(name) && f.body == c.utf8(text) && f.crc == c.check(c.utf8(text))
  }

  /** `f` is one of the files every bundle has. */
  ghost predicate IsFixed(c: Codec, b: Bundle, f: ZipArchive.File) {
    || Holds(c, f, "testfaelle.md", b.combinedMarkdown)
    || Holds(c, f, "business-intent-ir.json", b.businessIntentIr)
    || Holds(c, f, "regulatoryRelevance-summary.json", b.regulatorySummary)
  }

  ghost predicate IsManifest(c: Codec, b: Bundle, f: ZipArchive.File) {
    b.evidenceManifest.Some? && Holds(c, f, "evidence-manifest.json", b.evidenceManifest.value)
  }

  ghost predicate IsCase(c: Codec, f: ZipArchive.File, r: Raw) {
    Holds(c, f, "cases/" + r.filename, r.body)
  }

  ghost predicate Finds(c: Codec, fs: seq<ZipArchive.File>, name: string, text: string) {
    exists f :: f in fs && Holds(c, f, name, text)
  }

  ghost predicate IsAnyCase(c: Codec, b: Bundle, f: ZipArchive.File) {
    exists r :: r in b.perCase && IsCase(c, f, r)
  }

  /** The files are stored in the order of their names. */
  ghost predicate InOrder(c: Codec, fs: seq<ZipArchive.File>, names: seq<string>) {
    && |names| == |fs|
    && (forall i :: 0 <= i < |fs| ==> fs[i].name == c.utf8(names[i]))
    && (forall i, j :: 0 <= i < j < |names| ==> Leq(names[i], names[j]))
  }

  ghost predicate FindsAllOf(c: Codec, b: Bundle, fs: seq<ZipArchive.File>) {
    && Finds(c, fs, "testfaelle.md", b.combinedMarkdown)
    && Finds(c, fs, "business-intent-ir.json", b.businessIntentIr)
    && Finds(c, fs, "regulatoryRelevance-summary.json", b.regulatorySummary)
    && (b.evidenceManifest.Some? ==> Finds(c, fs, "evidence-manifest.json", b.evidenceManifest.value))
    && (forall r :: r in b.perCase ==> Finds(c, fs, "cases/" + r.filename, r.body))
  }

  function FileOfRaw(c: Codec, r: Raw): ZipArchive.File {
    ZipArchive.File(c.utf8(r.filename), c.utf8(r.body), c.check(c.utf8(r.body)))
  }

  lemma RawHolds(c: Codec, r: Raw)
    ensures Holds(c, FileOfRaw(c, r), r.filename, r.body)
  {
  }

  lemma StoredFiles(c: Codec, b: Bundle)
    ensures var raws := SortBy(RawName, RawFiles(b));
            var fs := Files(EntriesOf(c, b));
            && |fs| == |raws| == |RawFiles(b)|
            && (forall i :: 0 <= i < |fs| ==> fs[i] == FileOfRaw(c, raws[i]))
            && (forall r :: r in raws <==> r in RawFiles(b))
  {
    var raws := SortBy(RawName, RawFiles(b));
    SortBySorts(RawName, RawFiles(b));
    MapAt(Packer(c), raws);
    assert |raws| == |multiset(raws)| == |multiset(RawFiles(b))| == |RawFiles(b)|;
    forall r ensures r in raws <==> r in RawFiles(b) {
      assert r in raws <==> r in multiset(raws);
      assert r in RawFiles(b) <==> r in multiset(RawFiles(b));
    }
    FilesAt(EntriesOf(c, b));
  }

  lemma {:induction false} FilesAt(es: seq<ZipArchive.Entry>)
    ensures |Files(es)| == |es| && forall i :: 0 <= i < |es| ==> Files(es)[i] == FileOf(es[i])
  {
    if es != [] {
      FilesAt(es[1..]);
    }
  }

  lemma RawsAre(b: Bundle)
    ensures |RawFiles(b)| == 3 + |b.perCase| + (if b.evidenceManifest.Some? then 1 else 0)
    ensures Raw("testfaelle.md", b.combinedMarkdown) in RawFiles(b)
    ensures Raw("business-intent-ir.json", b.businessIntentIr) in RawFiles(b)
    ensures Raw("regulatoryRelevance-summary.json", b.regulatorySummary) in RawFiles(b)
    ensures b.evidenceManifest.Some? ==> Raw("evidence-manifest.json", b.evidenceManifest.value) in RawFiles(b)
    ensures forall r :: r in b.perCase ==> Raw("cases/" + r.filename, r.body) in RawFiles(b)
  {
    MapAt(InCases, b.perCase);
    var cs := Map(InCases, b.perCase);
    forall r | r in b.perCase ensures Raw("cases/" + r.filename, r.body) in RawFiles(b) {
      var i :| 0 <= i < |b.perCase| && b.perCase[i] == r;
      assert cs[i] in cs;
    }
  }

  lemma FileIsOneOf(c: Codec, b: Bundle, r: Raw)
    requires r in RawFiles(b)
    ensures var f := FileOfRaw(c, r); IsFixed(c, b, f) || IsManifest(c, b, f) || IsAnyCase(c, b, f)
  {
    MapAt(InCases, b.perCase);
    var cs := Map(InCases, b.perCase);
    if r in cs {
      var i :| 0 <= i < |cs| && cs[i] == r;
      assert b.perCase[i] in b.perCase && IsCase(c, FileOfRaw(c, r), b.perCase[i]);
    }
  }

  lemma FindsRaw(c: Codec, fs: seq<ZipArchive.File>, raws: seq<Raw>, r: Raw)
    requires |fs| == |raws| && (forall i :: 0 <= i < |fs| ==> fs[i] == FileOfRaw(c, raws[i])) && r in raws
    ensures Finds(c, fs, r.filename, r.body)
  {
    var i :| 0 <= i < |raws| && raws[i] == r;
    assert fs[i] in fs && Holds(c, fs[i], r.filename, r.body);
  }

  lemma FindsEach(c: Codec, b: Bundle, fs: seq<ZipArchive.File>, raws: seq<Raw>)
    requires |fs| == |raws| && (forall i :: 0 <= i < |fs| ==> fs[i] == FileOfRaw(c, raws[i]))
    requires forall r :: r in RawFiles(b) ==> r in raws
    ensures FindsAllOf(c, b, fs)
  {
    RawsAre(b);
    forall r | r in RawFiles(b) ensures Finds(c, fs, r.filename, r.body) {
      FindsRaw(c, fs, raws, r);
    }
    forall r | r in b.perCase ensures Finds(c, fs, "cases/" + r.filename, r.body) {
      FindsRaw(c, fs, raws, Raw("cases/" + r.filename, r.body));
    }
    FindsRaw(c, fs, raws, Raw("testfaelle.md", b.combinedMarkdown));
    FindsRaw(c, fs, raws, Raw("business-intent-ir.json", b.businessIntentIr));
    FindsRaw(c, fs, raws, Raw("regulatoryRelevance-summary.json", b.regulatorySummary));
    if b.evidenceManifest.Some? {
      FindsRaw(c, fs, raws, Raw("evidence-manifest.json", b.evidenceManifest.value));
    }
  }

  ghost predicate OnlyThese(c: Codec, b: Bundle, fs: seq<ZipArchive.File>) {
    && |fs| == 3 + |b.perCase| + (if b.evidenceManifest.Some? then 1 else 0)
    && forall f :: f in fs ==> IsFixed(c, b, f) || IsManifest(c, b, f) || IsAnyCase(c, b, f)
  }

  lemma OnlyTheseAreStored(c: Codec, b: Bundle)
    ensures OnlyThese(c, b, Files(EntriesOf(c, b)))
  {
    var raws, fs := SortBy(RawName, RawFiles(b)), Files(EntriesOf(c, b));
    StoredFiles(c, b);
    RawsAre(b);
    forall f | f in fs ensures IsFixed(c, b, f) || IsManifest(c, b, f) || IsAnyCase(c, b, f) {
      var i :| 0 <= i < |fs| && fs[i] == f;
      assert raws[i] in raws;
      FileIsOneOf(c, b, raws[i]);
    }
  }

  lemma AllAreStored(c: Codec, b: Bundle)
    ensures FindsAllOf(c, b, Files(EntriesOf(c, b)))
  {
    StoredFiles(c, b);
    FindsEach(c, b, Files(EntriesOf(c, b)), SortBy(RawName, RawFiles(b)));
  }

  lemma StoredInOrder(c: Codec, b: Bundle)
    ensures exists names :: InOrder(c, Files(EntriesOf(c, b)), names)
  {
    var raws := SortBy(RawName, RawFiles(b));
    StoredFiles(c, b);
    SortBySorts(RawName, RawFiles(b));
    MapAt(RawName, raws);
    var names := Map(RawName, raws);
    forall i, j | 0 <= i < j < |names| ensures Leq(names[i], names[j]) {
      assert Leq(RawName(raws[i]), RawName(raws[j]));
    }
    assert InOrder(c, Files(EntriesOf(c, b)), names);
  }

  /** Every text of the bundle is stored under the name that belongs to it, nothing else is, and the names are in order. */
  ghost predicate Carries(c: Codec, b: Bundle, fs: seq<ZipArchive.File>) {
    FindsAllOf(c, b, fs) && OnlyThese(c, b, fs) && exists names :: InOrder(c, fs, names)
  }

  /**
   * A reader of the bundle's archive finds each text of the bundle under the name that belongs to it, nothing else,
   * and the files in the order of their names.
   */
  lemma ReaderFinds(c: Codec, b: Bundle)
    requires Fits(EntriesOf(c, b))
    ensures var r := Read(c.check, Archive(EntriesOf(c, b))); r.Some? && Carries(c, b, r.value)
  {
    BundleReadBack(c, b);
    AllAreStored(c, b);
    OnlyTheseAreStored(c, b);
    StoredInOrder(c, b);
  }

  // ---- The bytes of the format ------------------------------------------------------------------

  /** How a local header starts, sections 4.3.7 and 4.4.4 to 4.4.6 of PKWARE APPNOTE. */
  lemma LocalHeaderStarts(e: ZipArchive.Entry)
    requires EntryFits(e)
    ensures |LocalHeader(e)| == 30
    ensures LocalHeader(e)[..14] == [0x50, 0x4b, 3, 4, 20, 0, 0, 8, 0, 0, 0, 0, 0x21, 0x5c]
  {
  }

  /** How a header in the directory starts, section 4.3.12 of PKWARE APPNOTE. */
  lemma CentralHeaderStarts(e: ZipArchive.Entry, offset: nat)
    requires EntryFits(e) && offset < LIMIT32
    ensures |CentralHeader(e, offset)| == 46
    ensures CentralHeader(e, offset)[..16] == [0x50, 0x4b, 1, 2, 20, 0, 20, 0, 0, 8, 0, 0, 0, 0, 0x21, 0x5c]
    ensures CentralHeader(e, offset)[30..42] == [0, 0, 0, 0, 0, 0, 0, 0, 0, 0, 0, 0]
  {
  }

  /** How the end record starts, section 4.3.16 of PKWARE APPNOTE. */
  lemma EndStarts(total: nat, size: nat, offset: nat)
    requires total < LIMIT16 && size < LIMIT32 && offset < LIMIT32
    ensures EndFields(total, size, offset)[..8] == [0x50, 0x4b, 5, 6, 0, 0, 0, 0]
  {
  }
}
