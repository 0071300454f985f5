/** The customer bundle: its files, sorted and packed into an archive. */
module MarkdownBundle {
  import opened Prelude
  import opened Ordering
  import opened Crc32
  import opened ZipArchive

  datatype Raw = Raw(filename: string, body: string)

  datatype Bundle = Bundle(
    combinedMarkdown: string,
    perCase: seq<Raw>,
    businessIntentIr: string,
    evidenceManifest: Option<string>,
    regulatorySummary: string)

  function RawName(r: Raw): string {
    r.filename
  }

  function InCases(r: Raw): Raw {
    Raw("cases/" + r.filename, r.body)
  }

  function RawFiles(b: Bundle): seq<Raw> {
    [Raw("testfaelle.md", b.combinedMarkdown)] + Map(InCases, b.perCase) + JsonFiles(b)
  }

  function JsonFiles(b: Bundle): seq<Raw> {
    [Raw("business-intent-ir.json", b.businessIntentIr)] +
    (if b.evidenceManifest.Some? then [Raw("evidence-manifest.json", b.evidenceManifest.value)] else []) +
    [Raw("regulatoryRelevance-summary.json", b.regulatorySummary)]
  }

  function CrcOf(data: seq<Byte>): nat {
    Checksum(data) as nat
  }

  /** `utf8` encodes text and `check` is `CrcOf`. */
  datatype Codec = Codec(utf8: string -> seq<Byte>, check: seq<Byte> -> nat)

  function Packed(c: Codec, r: Raw): ZipArchive.Entry {
    ZipArchive.Entry(c.utf8(r.filename), c.utf8(r.body), c.check(c.utf8(r.body)))
  }

  function Packer(c: Codec): Raw -> ZipArchive.Entry {
    (r: Raw) => Packed(c, r)
  }

  /** The entries of the archive in the order in which they are stored. */
  function EntriesOf(c: Codec, b: Bundle): seq<ZipArchive.Entry> {
    Map(Packer(c), SortBy(RawName, RawFiles(b)))
  }

  // ---- The order of the files ----------------------------------------------------------------

  lemma CasesApart(x: Raw, y: Raw)
    ensures RawName(InCases(x)) == RawName(InCases(y)) <==> RawName(x) == RawName(y)
    ensures RawName(InCases(x))[0] == 'c'
  {
    assert ("cases/" + x.filename)[6..] == x.filename && ("cases/" + y.filename)[6..] == y.filename;
  }

  lemma JsonApart(b: Bundle)
    ensures DistinctKeys(RawName, JsonFiles(b))
    ensures forall x :: x in JsonFiles(b) ==> RawName(x) != "" && RawName(x)[0] in {'b', 'e', 'r'}
  {
    assert "business-intent-ir.json"[0] == 'b' && "evidence-manifest.json"[0] == 'e' && "regulatoryRelevance-summary.json"[0] == 'r';
  }

  lemma CasesDistinctIff(cases: seq<Raw>)
    ensures DistinctKeys(RawName, Map(InCases, cases)) <==> DistinctKeys(RawName, cases)
    ensures forall x :: x in Map(InCases, cases) ==> RawName(x) != "" && RawName(x)[0] == 'c'
  {
    var fs := Map(InCases, cases);
    MapAt(InCases, cases);
    forall i, j | 0 <= i < |cases| && 0 <= j < |cases|
      ensures RawName(fs[i]) == RawName(fs[j]) <==> RawName(cases[i]) == RawName(cases[j])
      ensures RawName(fs[i]) != "" && RawName(fs[i])[0] == 'c'
    {
      CasesApart(cases[i], cases[j]);
    }
  }

  /** All names of an archive differ exactly if those of the per-case files do. */
  lemma NamesDistinctIff(b: Bundle)
    ensures DistinctKeys(RawName, RawFiles(b)) <==> DistinctKeys(RawName, b.perCase)
  {
    var first, cases := [Raw("testfaelle.md", b.combinedMarkdown)], Map(InCases, b.perCase);
    assert "testfaelle.md"[0] == 't';
    JsonApart(b);
    CasesDistinctIff(b.perCase);
    DistinctConcat(RawName, first, cases);
    DistinctConcat(RawName, first + cases, JsonFiles(b));
  }

  /** With distinct names every correct sort puts the files into the same order, whatever its comparator says of ties. */
  lemma AnySortAgrees(b: Bundle, sorted: seq<Raw>)
    requires DistinctKeys(RawName, b.perCase) && SortedBy(RawName, sorted) && multiset(sorted) == multiset(RawFiles(b))
    ensures sorted == SortBy(RawName, RawFiles(b))
  {
    NamesDistinctIff(b);
    SortBySorts(RawName, RawFiles(b));
    DistinctKeysPermute(RawName, RawFiles(b), SortBy(RawName, RawFiles(b)));
    SortedUnique(RawName, SortBy(RawName, RawFiles(b)), sorted);
  }

  // ---- The whole bundle ------------------------------------------------------------------------------

  /** A reader of the bundle finds every file under its name, with its content and checksum, in sorted order. */
  lemma BundleReadBack(c: Codec, b: Bundle)
    requires Fits(EntriesOf(c, b))
    ensures Read(c.check, Archive(EntriesOf(c, b))) == Some(Files(EntriesOf(c, b)))
  {
    MapAt(Packer(c), SortBy(RawName, RawFiles(b)));
    ReadBack(c.check, EntriesOf(c, b));
  }

  /** The codec's checksum is the CRC. */
  ghost predicate Checks(c: Codec) {
    forall data {:trigger CrcOf(data)} :: c.check(data) == CrcOf(data)
  }

  method EntryCrc(c: Codec, data: seq<Byte>) returns (crc: nat)
    requires Checks(c)
    ensures crc == c.check(data) && crc < LIMIT32
  {
    var word := Crc32Of(data);
    crc := word as nat;
    assert crc == CrcOf(data);
  }

  method CollectFiles(b: Bundle) returns (raw: seq<Raw>)
    ensures raw == RawFiles(b)
  {
    raw := [Raw("testfaelle.md", b.combinedMarkdown)];
    for i := 0 to |b.perCase|
      invariant raw == [Raw("testfaelle.md", b.combinedMarkdown)] + Map(InCases, b.perCase[..i])
    {
      assert b.perCase[..i + 1][..i] == b.perCase[..i];
      raw := raw + [Raw("cases/" + b.perCase[i].filename, b.perCase[i].body)];
    }
    assert b.perCase[..|b.perCase|] == b.perCase;
    ghost var before := raw;
    raw := raw + [Raw("business-intent-ir.json", b.businessIntentIr)];
    if b.evidenceManifest.Some? {
      raw := raw + [Raw("evidence-manifest.json", b.evidenceManifest.value)];
    }
    raw := raw + [Raw("regulatoryRelevance-summary.json", b.regulatorySummary)];
    assert raw == before + JsonFiles(b);
  }

  method CollectEntries(c: Codec, b: Bundle) returns (es: seq<ZipArchive.Entry>)
    requires Checks(c)
    ensures es == EntriesOf(c, b) && forall e :: e in es ==> e.crc < LIMIT32
  {
    var raw := CollectFiles(b);
    raw := SortBy(RawName, raw);
    es := [];
    for i := 0 to |raw|
      invariant es == Map(Packer(c), raw[..i]) && forall e :: e in es ==> e.crc < LIMIT32
    {
      assert raw[..i + 1][..i] == raw[..i];
      var crc := EntryCrc(c, c.utf8(raw[i].body));
      es := es + [ZipArchive.Entry(c.utf8(raw[i].filename), c.utf8(raw[i].body), crc)];
    }
    assert raw[..|raw|] == raw;
  }

  ghost predicate FirstFit(es: seq<ZipArchive.Entry>, n: nat)
    requires n <= |es|
  {
    forall k :: 0 <= k < n ==> EntryFits(es[k])
  }

  /** What the next entry adds to both parts of the archive, unless it does not fit. */
  method PackEntry(es: seq<ZipArchive.Entry>, i: nat, offset: nat) returns (r: Option<(seq<Byte>, seq<Byte>)>)
    requires i < |es| && offset == TotalLength(es[..i]) && FirstFit(es, i)
    ensures r.Some? <==> EntryFits(es[i]) && offset < LIMIT32
    ensures r.Some? ==>
              && Locals(LocalHeader, es[..i + 1]) == Locals(LocalHeader, es[..i]) + r.value.0
              && Central(CentralHeader, es[..i + 1]) == Central(CentralHeader, es[..i]) + r.value.1
              && TotalLength(es[..i + 1]) == offset + |r.value.0|
              && DirectoryLength(es[..i + 1]) == DirectoryLength(es[..i]) + |r.value.1|
              && FirstFit(es, i + 1)
  {
    var local := EncodeLocalFileHeader(es[i]);
    if local.None? {
      return None;
    }
    var central := EncodeCentralDirectoryHeader(es[i], offset);
    if central.None? {
      return None;
    }
    PackStep(es, i, local.value[..], central.value[..]);
    return Some((local.value[..] + es[i].body, central.value[..]));
  }

  /** Packs the entries: both parts of the archive, unless an entry does not fit. */
  method PackEntries(es: seq<ZipArchive.Entry>) returns (r: Option<(seq<Byte>, seq<Byte>, nat)>)
    ensures r.None? ==> !Fits(es)
    ensures r.Some? ==>
              && r.value.0 == Locals(LocalHeader, es) && r.value.1 == Central(CentralHeader, es)
              && r.value.2 == TotalLength(es) && |r.value.1| == DirectoryLength(es)
              && FirstFit(es, |es|)
  {
    var locals, centrals: seq<Byte> := [], [];
    var offset := 0;
    for i := 0 to |es|
      invariant locals == Locals(LocalHeader, es[..i]) && centrals == Central(CentralHeader, es[..i])
      invariant offset == TotalLength(es[..i]) && |centrals| == DirectoryLength(es[..i])
      invariant FirstFit(es, i)
    {
      var parts := PackEntry(es, i, offset);
      if parts.None? {
        Unfit(es, i);
        return None;
      }
      locals := locals + parts.value.0;
      centrals := centrals + parts.value.1;
      offset := offset + |parts.value.0|;
    }
    assert es[..|es|] == es;
    return Some((locals, centrals, offset));
  }

  /** The archive of the entries, unless something does not fit into its field. */
  method Pack(es: seq<ZipArchive.Entry>) returns (r: Option<seq<Byte>>)
    ensures r.Some? <==> Fits(es)
    ensures r.Some? ==> r.value == Archive(es)
  {
    var parts := PackEntries(es);
    if parts.None? {
      return None;
    }
    var end := EncodeEndOfCentralDirectory(|es|, |parts.value.1|, parts.value.2);
    if end.None? {
      return None;
    }
    AllEntriesFit(es);
    return Some(parts.value.0 + parts.value.1 + end.value[..]);
  }

  /** What one more entry adds to both parts of the archive. */
  lemma PackStep(es: seq<ZipArchive.Entry>, i: nat, local: seq<Byte>, central: seq<Byte>)
    requires i < |es| && EntryFits(es[i]) && TotalLength(es[..i]) < LIMIT32
    requires local == LocalFields(es[i]) + es[i].name && central == CentralFields(es[i], TotalLength(es[..i])) + es[i].name
    ensures Locals(LocalHeader, es[..i + 1]) == Locals(LocalHeader, es[..i]) + (local + es[i].body)
    ensures Central(CentralHeader, es[..i + 1]) == Central(CentralHeader, es[..i]) + central
    ensures TotalLength(es[..i + 1]) == TotalLength(es[..i]) + |local| + |es[i].body|
    ensures DirectoryLength(es[..i + 1]) == DirectoryLength(es[..i]) + |central|
  {
    assert es[..i + 1][..i] == es[..i];
  }

  lemma Unfit(es: seq<ZipArchive.Entry>, i: nat)
    requires i < |es| && !(EntryFits(es[i]) && TotalLength(es[..i]) < LIMIT32)
    ensures !Fits(es)
  {
    if AllFit(es) {
      EachFits(es, i);
    }
  }

  lemma AllEntriesFit(es: seq<ZipArchive.Entry>)
    requires FirstFit(es, |es|)
    ensures forall e :: e in es ==> |e.name| < LIMIT16 && e.crc < LIMIT32
  {
  }

  /** Produces the archive exactly if everything fits, and nothing otherwise. */
  method BuildCustomerMarkdownZipBundle(c: Codec, b: Bundle) returns (r: Option<seq<Byte>>)
    requires Checks(c)
    ensures r.Some? <==> Fits(EntriesOf(c, b))
    ensures r.Some? ==> r.value == Archive(EntriesOf(c, b))
  {
    var es := CollectEntries(c, b);
    r := Pack(es);
  }
}
