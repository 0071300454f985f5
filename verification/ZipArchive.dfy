/** The archive of stored entries, and a reader that follows its own directory. */
module ZipArchive {
  import opened Prelude
  import opened Crc32

  const LOCAL_SIGNATURE := 0x04034b50
  const CENTRAL_SIGNATURE := 0x02014b50
  const END_SIGNATURE := 0x06054b50
  const VERSION := 20
  const UTF8_NAMES := 0x0800
  const STORED := 0
  const DOS_TIME := 0
  /** The first of January 2026. */
  const DOS_DATE := (2026 - 1980) * 512 + 1 * 32 + 1

  const LIMIT16 := 0x1_0000
  const LIMIT32 := 0x1_0000_0000

  datatype Entry = Entry(name: seq<Byte>, body: seq<Byte>, crc: nat)

  // ---- The layout, sections 4.3.7, 4.3.12 and 4.3.16 of PKWARE APPNOTE ---------------------

  function LE16(n: nat): (r: seq<Byte>)
    requires n < LIMIT16
    ensures |r| == 2
  {
    [n % 256, n / 256]
  }

  function LE32(n: nat): (r: seq<Byte>)
    requires n < LIMIT32
    ensures |r| == 4
  {
    [n % 256, n / 256 % 256, n / 65536 % 256, n / 16777216]
  }

  predicate EntryFits(e: Entry) {
    |e.name| < LIMIT16 && |e.body| < LIMIT32 && e.crc < LIMIT32
  }

  function LocalFields(e: Entry): (r: seq<Byte>)
    requires EntryFits(e)
    ensures |r| == 30
  {
    LE32(LOCAL_SIGNATURE) + LE16(VERSION) + LE16(UTF8_NAMES) + LE16(STORED) + LE16(DOS_TIME) + LE16(DOS_DATE) +
    LE32(e.crc) + LE32(|e.body|) + LE32(|e.body|) + LE16(|e.name|) + LE16(0)
  }

  function CentralFields(e: Entry, offset: nat): (r: seq<Byte>)
    requires EntryFits(e) && offset < LIMIT32
    ensures |r| == 46
  {
    LE32(CENTRAL_SIGNATURE) + LE16(VERSION) + LE16(VERSION) + LE16(UTF8_NAMES) + LE16(STORED) + LE16(DOS_TIME) +
    LE16(DOS_DATE) + LE32(e.crc) + LE32(|e.body|) + LE32(|e.body|) + LE16(|e.name|) + LE16(0) + LE16(0) + LE16(0) +
    LE16(0) + LE32(0) + LE32(offset)
  }

  function EndFields(total: nat, size: nat, offset: nat): (r: seq<Byte>)
    requires total < LIMIT16 && size < LIMIT32 && offset < LIMIT32
    ensures |r| == 22
  {
    LE32(END_SIGNATURE) + LE16(0) + LE16(0) + LE16(total) + LE16(total) + LE32(size) + LE32(offset) + LE16(0)
  }

  function TotalLength(es: seq<Entry>): nat {
    if es == [] then 0 else TotalLength(es[..|es| - 1]) + 30 + |es[|es| - 1].name| + |es[|es| - 1].body|
  }

  function DirectoryLength(es: seq<Entry>): nat {
    if es == [] then 0 else DirectoryLength(es[..|es| - 1]) + 46 + |es[|es| - 1].name|
  }

  function LocalHeader(e: Entry): seq<Byte> {
    if EntryFits(e) then LocalFields(e) else []
  }

  function CentralHeader(e: Entry, offset: nat): seq<Byte> {
    if EntryFits(e) && offset < LIMIT32 then CentralFields(e, offset) else []
  }

  /** Local headers, names and bodies; `header` is `LocalHeader`. */
  function Locals(header: Entry -> seq<Byte>, es: seq<Entry>): seq<Byte> {
    if es == [] then []
    else Locals(header, es[..|es| - 1]) + (header(es[|es| - 1]) + es[|es| - 1].name + es[|es| - 1].body)
  }

  /** Directory headers, with the offsets of the local headers, and names; `header` is `CentralHeader`. */
  function Central(header: (Entry, nat) -> seq<Byte>, es: seq<Entry>): seq<Byte> {
    if es == [] then []
    else Central(header, es[..|es| - 1]) + (header(es[|es| - 1], TotalLength(es[..|es| - 1])) + es[|es| - 1].name)
  }

  /** Everything fits into its field. */
  ghost predicate Fits(es: seq<Entry>) {
    |es| < LIMIT16 && DirectoryLength(es) < LIMIT32 && AllFit(es)
  }

  ghost predicate AllFit(es: seq<Entry>) {
    TotalLength(es) < LIMIT32 && forall e :: e in es ==> |e.name| < LIMIT16 && e.crc < LIMIT32
  }

  ghost function Archive(es: seq<Entry>): seq<Byte>
    requires Fits(es)
  {
    Locals(LocalHeader, es) + Central(CentralHeader, es) + EndFields(|es|, DirectoryLength(es), TotalLength(es))
  }

  // ---- The reader ------------------------------------------------------------------------------

  datatype File = File(name: seq<Byte>, body: seq<Byte>, crc: nat)

  function U16(h: seq<Byte>, at: nat): nat
    requires at + 2 <= |h|
  {
    h[at] as int + 256 * (h[at + 1] as int)
  }

  function U32(h: seq<Byte>, at: nat): nat
    requires at + 4 <= |h|
  {
    h[at] as int + 256 * (h[at + 1] as int) + 65536 * (h[at + 2] as int) + 16777216 * (h[at + 3] as int)
  }

  /** `size` bytes from `at` on, if there are that many. */
  function Take(bs: seq<Byte>, at: nat, size: nat): Option<seq<Byte>> {
    if at + size <= |bs| then Some(bs[at..at + size]) else None
  }

  /** The body behind the local header at `at`, which must repeat what the directory says. */
  function ReadBody(bs: seq<Byte>, at: nat, name: seq<Byte>, crc: nat, size: nat): Option<seq<Byte>> {
    var header := Take(bs, at, 30);
    if header.None? then None
    else
      var h := header.value;
      if U32(h, 0) != LOCAL_SIGNATURE || U16(h, 8) != STORED || U32(h, 14) != crc || U32(h, 18) != size || U32(h, 22) != size then None
      else if Take(bs, at + 30, U16(h, 26)) != Some(name) then None
      else Take(bs, at + 30 + U16(h, 26) + U16(h, 28), size)
  }

  /** A file, and where the next directory entry starts. */
  datatype Located = Located(file: File, next: nat)

  /** The directory entry at `at` and the file it leads to; `check` is the checksum. */
  function ReadEntry(check: seq<Byte> -> nat, bs: seq<Byte>, at: nat): Option<Located> {
    var header := Take(bs, at, 46);
    if header.None? then None
    else
      var h := header.value;
      var name := Take(bs, at + 46, U16(h, 28));
      if U32(h, 0) != CENTRAL_SIGNATURE || U16(h, 10) != STORED || U32(h, 20) != U32(h, 24) || name.None? then None
      else
        var body := ReadBody(bs, U32(h, 42), name.value, U32(h, 16), U32(h, 24));
        if body.None? || check(body.value) != U32(h, 16) then None
        else Some(Located(File(name.value, body.value, U32(h, 16)), at + 46 + U16(h, 28) + U16(h, 30) + U16(h, 32)))
  }

  function EntryReader(check: seq<Byte> -> nat, bs: seq<Byte>): nat -> Option<Located> {
    (at: nat) => ReadEntry(check, bs, at)
  }

  datatype Directory = Directory(files: seq<File>, end: nat)

  /** `n` directory entries from `at` on, and where the last one ends; `entry` is an `EntryReader`. */
  function Walk(entry: nat -> Option<Located>, at: nat, n: nat): Option<Directory>
    decreases n
  {
    if n == 0 then Some(Directory([], at))
    else
      match entry(at)
      case None => None
      case Some(found) =>
        match Walk(entry, found.next, n - 1)
        case None => None
        case Some(rest) => Some(Directory([found.file] + rest.files, rest.end))
  }

  /** Starts at the end record; the directory must end right before it. */
  function Read(check: seq<Byte> -> nat, bs: seq<Byte>): Option<seq<File>> {
    if |bs| < 22 then None
    else
      var h := bs[|bs| - 22..];
      if U32(h, 0) != END_SIGNATURE || U16(h, 8) != U16(h, 10) || U16(h, 20) != 0 then None
      else
        var r := Walk(EntryReader(check, bs), U32(h, 16), U16(h, 10));
        if r.None? || r.value.end != U32(h, 16) + U32(h, 12) || r.value.end != |bs| - 22 then None else Some(r.value.files)
  }

  // ---- The reader recovers what was written ------------------------------------------------------

  lemma LE32Back(n: nat)
    requires n < LIMIT32
    ensures U32(LE32(n), 0) == n
  {
    assert n == n % 256 + 256 * (n / 256);
    assert n / 256 == n / 256 % 256 + 256 * (n / 65536);
    assert n / 65536 == n / 65536 % 256 + 256 * (n / 16777216);
  }

  lemma LE16Back(n: nat)
    requires n < LIMIT16
    ensures U16(LE16(n), 0) == n
  {
  }

  /** The local header `h` says what the entry is. */
  ghost predicate LocalSays(h: seq<Byte>, e: Entry) {
    && |h| == 30 && U32(h, 0) == LOCAL_SIGNATURE && U16(h, 8) == STORED && U32(h, 14) == e.crc && U32(h, 18) == |e.body|
    && U32(h, 22) == |e.body| && U16(h, 26) == |e.name| && U16(h, 28) == 0
  }

  /** The directory header `h` says what the entry is and where it starts. */
  ghost predicate CentralSays(h: seq<Byte>, e: Entry, offset: nat) {
    && |h| == 46 && U32(h, 0) == CENTRAL_SIGNATURE && U16(h, 10) == STORED && U32(h, 16) == e.crc && U32(h, 20) == |e.body|
    && U32(h, 24) == |e.body| && U16(h, 28) == |e.name| && U16(h, 30) == 0 && U16(h, 32) == 0 && U32(h, 42) == offset
  }

  ghost predicate LocalLaw(header: Entry -> seq<Byte>) {
    forall e :: EntryFits(e) ==> LocalSays(header(e), e)
  }

  ghost predicate CentralLaw(header: (Entry, nat) -> seq<Byte>) {
    forall e, offset: nat :: EntryFits(e) && offset < LIMIT32 ==> CentralSays(header(e, offset), e, offset)
  }

  lemma LocalFieldsRead(e: Entry)
    requires EntryFits(e)
    ensures LocalSays(LocalHeader(e), e)
  {
    var h := LocalFields(e);
    LE32Back(e.crc);
    LE32Back(|e.body|);
    LE16Back(|e.name|);
    assert h[14..18] == LE32(e.crc) && h[18..22] == LE32(|e.body|) && h[22..26] == LE32(|e.body|);
    assert h[0..4] == LE32(LOCAL_SIGNATURE) && h[8..10] == LE16(STORED) && h[26..28] == LE16(|e.name|) && h[28..30] == LE16(0);
  }

  lemma CentralFieldsRead(e: Entry, offset: nat)
    requires EntryFits(e) && offset < LIMIT32
    ensures CentralSays(CentralHeader(e, offset), e, offset)
  {
    CentralStartSlices(e, offset);
    CentralMiddleSlices(e, offset);
    CentralEndSlices(e, offset);
    SlicesSay(CentralFields(e, offset), e, offset);
  }

  lemma SlicesSay(h: seq<Byte>, e: Entry, offset: nat)
    requires EntryFits(e) && offset < LIMIT32 && |h| == 46
    requires h[0..4] == LE32(CENTRAL_SIGNATURE) && h[10..12] == LE16(STORED)
    requires h[16..20] == LE32(e.crc) && h[20..24] == LE32(|e.body|) && h[24..28] == LE32(|e.body|) && h[28..30] == LE16(|e.name|)
    requires h[30..32] == LE16(0) && h[32..34] == LE16(0) && h[42..46] == LE32(offset)
    ensures CentralSays(h, e, offset)
  {
    U32At(h, 0, CENTRAL_SIGNATURE);
    U16At(h, 10, STORED);
    U32At(h, 16, e.crc);
    U32At(h, 20, |e.body|);
    U32At(h, 24, |e.body|);
    U16At(h, 28, |e.name|);
    U16At(h, 30, 0);
    U16At(h, 32, 0);
    U32At(h, 42, offset);
  }

  lemma U16At(h: seq<Byte>, at: nat, n: nat)
    requires at + 2 <= |h| && n < LIMIT16 && h[at..at + 2] == LE16(n)
    ensures U16(h, at) == n
  {
    LE16Back(n);
    var part := h[at..at + 2];
    assert h[at] == part[0] && h[at + 1] == part[1];
  }

  lemma U32At(h: seq<Byte>, at: nat, n: nat)
    requires at + 4 <= |h| && n < LIMIT32 && h[at..at + 4] == LE32(n)
    ensures U32(h, at) == n
  {
    LE32Back(n);
    var part := h[at..at + 4];
    assert h[at] == part[0] && h[at + 1] == part[1] && h[at + 2] == part[2] && h[at + 3] == part[3];
  }

  lemma CentralStartSlices(e: Entry, offset: nat)
    requires EntryFits(e) && offset < LIMIT32
    ensures var h := CentralFields(e, offset); h[0..4] == LE32(CENTRAL_SIGNATURE) && h[10..12] == LE16(STORED)
  {
  }

  lemma CentralMiddleSlices(e: Entry, offset: nat)
    requires EntryFits(e) && offset < LIMIT32
    ensures var h := CentralFields(e, offset);
            && h[16..20] == LE32(e.crc) && h[20..24] == LE32(|e.body|) && h[24..28] == LE32(|e.body|)
            && h[28..30] == LE16(|e.name|)
  {
  }

  lemma CentralEndSlices(e: Entry, offset: nat)
    requires EntryFits(e) && offset < LIMIT32
    ensures var h := CentralFields(e, offset); h[30..32] == LE16(0) && h[32..34] == LE16(0) && h[42..46] == LE32(offset)
  {
  }

  lemma HeadersRead()
    ensures LocalLaw(LocalHeader) && CentralLaw(CentralHeader)
  {
    forall e | EntryFits(e) ensures LocalSays(LocalHeader(e), e) {
      LocalFieldsRead(e);
    }
    forall e, offset: nat | EntryFits(e) && offset < LIMIT32 ensures CentralSays(CentralHeader(e, offset), e, offset) {
      CentralFieldsRead(e, offset);
    }
  }

  ghost predicate EndSays(h: seq<Byte>, total: nat, size: nat, offset: nat) {
    && |h| == 22 && U32(h, 0) == END_SIGNATURE && U16(h, 8) == total && U16(h, 10) == total && U32(h, 12) == size
    && U32(h, 16) == offset && U16(h, 20) == 0
  }

  lemma EndFieldsRead(total: nat, size: nat, offset: nat)
    requires total < LIMIT16 && size < LIMIT32 && offset < LIMIT32
    ensures EndSays(EndFields(total, size, offset), total, size, offset)
  {
    var h := EndFields(total, size, offset);
    LE32Back(size);
    LE32Back(offset);
    LE16Back(total);
    assert h[0..4] == LE32(END_SIGNATURE) && h[8..10] == LE16(total) && h[10..12] == LE16(total);
    assert h[12..16] == LE32(size) && h[16..20] == LE32(offset);
    assert h == h[..20] + LE16(0);
  }

  lemma {:induction false} TotalGrows(es: seq<Entry>, n: nat)
    requires n < |es|
    ensures TotalLength(es[..n]) + 30 + |es[n].name| + |es[n].body| <= TotalLength(es)
    ensures DirectoryLength(es[..n]) + 46 + |es[n].name| <= DirectoryLength(es)
    decreases |es|
  {
    var init := es[..|es| - 1];
    if n < |init| {
      TotalGrows(init, n);
      assert init[..n] == es[..n];
    }
  }

  lemma EachFits(es: seq<Entry>, i: nat)
    requires AllFit(es) && i < |es|
    ensures EntryFits(es[i]) && TotalLength(es[..i]) < LIMIT32 && AllFit(es[..i])
  {
    TotalGrows(es, i);
    assert es[i] in es;
    assert forall e :: e in es[..i] ==> e in es;
  }

  /** The local part of entry `i` stands where the lengths before it say. */
  lemma {:induction false} LocalAt(header: Entry -> seq<Byte>, es: seq<Entry>, i: nat)
    requires LocalLaw(header) && AllFit(es)
    ensures |Locals(header, es)| == TotalLength(es)
    ensures i < |es| ==> HasAt(Locals(header, es), TotalLength(es[..i]), header(es[i]) + es[i].name + es[i].body)
    decreases |es|
  {
    if es != [] {
      var init, last := es[..|es| - 1], es[|es| - 1];
      EachFits(es, |es| - 1);
      LocalAt(header, init, i);
      assert LocalSays(header(last), last);
      if i < |init| {
        assert init[..i] == es[..i] && init[i] == es[i];
        HasAtInLonger(Locals(header, init), TotalLength(es[..i]), header(es[i]) + es[i].name + es[i].body,
                      header(last) + last.name + last.body);
      } else if i == |init| {
        assert es[..i] == init;
        HasAtEnd(Locals(header, init), header(last) + last.name + last.body);
      }
    }
  }

  /** The directory part of entry `i` stands where the lengths before it say. */
  lemma {:induction false} CentralAt(header: (Entry, nat) -> seq<Byte>, es: seq<Entry>, i: nat)
    requires CentralLaw(header) && AllFit(es)
    ensures |Central(header, es)| == DirectoryLength(es)
    ensures i < |es| ==> HasAt(Central(header, es), DirectoryLength(es[..i]), header(es[i], TotalLength(es[..i])) + es[i].name)
    decreases |es|
  {
    if es != [] {
      var init, last := es[..|es| - 1], es[|es| - 1];
      EachFits(es, |es| - 1);
      CentralAt(header, init, i);
      assert CentralSays(header(last, TotalLength(init)), last, TotalLength(init));
      if i < |init| {
        assert init[..i] == es[..i] && init[i] == es[i];
        HasAtInLonger(Central(header, init), DirectoryLength(es[..i]), header(es[i], TotalLength(es[..i])) + es[i].name,
                      header(last, TotalLength(init)) + last.name);
      } else if i == |init| {
        assert es[..i] == init;
        HasAtEnd(Central(header, init), header(last, TotalLength(init)) + last.name);
      }
    }
  }

  /** `part` stands in `all` from `at` on. */
  ghost predicate HasAt(all: seq<Byte>, at: nat, part: seq<Byte>) {
    at + |part| <= |all| && forall k {:trigger part[k]} :: 0 <= k < |part| ==> all[at + k] == part[k]
  }

  lemma HasAtInLonger(all: seq<Byte>, at: nat, part: seq<Byte>, more: seq<Byte>)
    requires HasAt(all, at, part)
    ensures HasAt(all + more, at, part)
  {
  }

  lemma HasAtEnd(all: seq<Byte>, part: seq<Byte>)
    ensures HasAt(all + part, |all|, part)
  {
  }

  lemma HasAtWithin(bs: seq<Byte>, start: nat, all: seq<Byte>, at: nat, part: seq<Byte>)
    requires HasAt(bs, start, all) && HasAt(all, at, part)
    ensures HasAt(bs, start + at, part)
  {
    forall k | 0 <= k < |part| ensures bs[start + at + k] == part[k] {
      assert all[at + k] == part[k];
    }
  }

  lemma TakeAt(bs: seq<Byte>, at: nat, part: seq<Byte>)
    requires HasAt(bs, at, part)
    ensures Take(bs, at, |part|) == Some(part)
  {
    assert bs[at..at + |part|] == part;
  }

  lemma HasAtSplit(bs: seq<Byte>, at: nat, a: seq<Byte>, b: seq<Byte>)
    requires HasAt(bs, at, a + b)
    ensures HasAt(bs, at, a) && HasAt(bs, at + |a|, b)
  {
    forall k | 0 <= k < |a| ensures bs[at + k] == a[k] {
      assert (a + b)[k] == a[k];
    }
    forall k | 0 <= k < |b| ensures bs[at + |a| + k] == b[k] {
      assert (a + b)[|a| + k] == b[k];
    }
  }

  lemma ReadBodyStep(bs: seq<Byte>, at: nat, h: seq<Byte>, e: Entry)
    requires LocalSays(h, e) && HasAt(bs, at, h + e.name + e.body)
    ensures ReadBody(bs, at, e.name, e.crc, |e.body|) == Some(e.body)
  {
    HasAtSplit(bs, at, h + e.name, e.body);
    HasAtSplit(bs, at, h, e.name);
    TakeAt(bs, at, h);
    TakeAt(bs, at + 30, e.name);
    TakeAt(bs, at + 30 + |e.name|, e.body);
  }

  function Files(es: seq<Entry>): seq<File> {
    if es == [] then [] else [FileOf(es[0])] + Files(es[1..])
  }

  function FileOf(e: Entry): File {
    File(e.name, e.body, e.crc)
  }

  /** Reading the directory entry at `at` gives `e`, and the next one is at `next`. */
  ghost predicate Leads(entry: nat -> Option<Located>, at: nat, e: Entry, next: nat) {
    entry(at) == Some(Located(FileOf(e), next))
  }

  ghost predicate ReadsAt(entry: nat -> Option<Located>, es: seq<Entry>, start: nat, i: nat)
    requires i < |es|
  {
    Leads(entry, start + DirectoryLength(es[..i]), es[i], start + DirectoryLength(es[..i + 1]))
  }

  lemma EntryBack(check: seq<Byte> -> nat, local: Entry -> seq<Byte>, central: (Entry, nat) -> seq<Byte>,
                  es: seq<Entry>, bs: seq<Byte>, i: nat)
    requires LocalLaw(local) && CentralLaw(central)
    requires AllFit(es) && i < |es| && HasAt(bs, 0, Locals(local, es)) && HasAt(bs, TotalLength(es), Central(central, es))
    requires es[i].crc == check(es[i].body)
    ensures ReadsAt(EntryReader(check, bs), es, TotalLength(es), i)
  {
    LocalPart(local, es, bs, i);
    CentralPart(central, es, bs, i);
    EntryFound(check, es, bs, i, central(es[i], TotalLength(es[..i])), local(es[i]));
  }

  lemma EntryFound(check: seq<Byte> -> nat, es: seq<Entry>, bs: seq<Byte>, i: nat, h: seq<Byte>, l: seq<Byte>)
    requires i < |es| && CentralSays(h, es[i], TotalLength(es[..i])) && LocalSays(l, es[i])
    requires HasAt(bs, TotalLength(es) + DirectoryLength(es[..i]), h + es[i].name)
    requires HasAt(bs, TotalLength(es[..i]), l + es[i].name + es[i].body) && check(es[i].body) == es[i].crc
    ensures ReadsAt(EntryReader(check, bs), es, TotalLength(es), i)
  {
    var at, next := TotalLength(es) + DirectoryLength(es[..i]), TotalLength(es) + DirectoryLength(es[..i + 1]);
    DirectoryStep(es, i);
    EntryStep(check, bs, at, h, l, es[i], TotalLength(es[..i]), next);
    LeadsThere(EntryReader(check, bs), es, TotalLength(es), i, at, next);
  }

  lemma LeadsThere(entry: nat -> Option<Located>, es: seq<Entry>, start: nat, i: nat, at: nat, next: nat)
    requires i < |es| && at == start + DirectoryLength(es[..i]) && next == start + DirectoryLength(es[..i + 1])
    requires Leads(entry, at, es[i], next)
    ensures ReadsAt(entry, es, start, i)
  {
  }

  lemma LocalPart(local: Entry -> seq<Byte>, es: seq<Entry>, bs: seq<Byte>, i: nat)
    requires LocalLaw(local) && AllFit(es) && i < |es| && HasAt(bs, 0, Locals(local, es))
    ensures LocalSays(local(es[i]), es[i]) && HasAt(bs, TotalLength(es[..i]), local(es[i]) + es[i].name + es[i].body)
  {
    EachFits(es, i);
    LocalAt(local, es, i);
    HasAtWithin(bs, 0, Locals(local, es), TotalLength(es[..i]), local(es[i]) + es[i].name + es[i].body);
  }

  lemma CentralPart(central: (Entry, nat) -> seq<Byte>, es: seq<Entry>, bs: seq<Byte>, i: nat)
    requires CentralLaw(central) && AllFit(es) && i < |es| && HasAt(bs, TotalLength(es), Central(central, es))
    ensures CentralSays(central(es[i], TotalLength(es[..i])), es[i], TotalLength(es[..i]))
    ensures HasAt(bs, TotalLength(es) + DirectoryLength(es[..i]), central(es[i], TotalLength(es[..i])) + es[i].name)
  {
    EachFits(es, i);
    CentralAt(central, es, i);
    HasAtWithin(bs, TotalLength(es), Central(central, es), DirectoryLength(es[..i]), central(es[i], TotalLength(es[..i])) + es[i].name);
  }

  lemma DirectoryStep(es: seq<Entry>, i: nat)
    requires i < |es|
    ensures DirectoryLength(es[..i + 1]) == DirectoryLength(es[..i]) + 46 + |es[i].name|
  {
    assert es[..i + 1][..i] == es[..i];
  }

  /** A directory header `h` and a local header `l` that say what the entry is lead to it. */
  lemma EntryStep(check: seq<Byte> -> nat, bs: seq<Byte>, at: nat, h: seq<Byte>, l: seq<Byte>, e: Entry, offset: nat, next: nat)
    requires CentralSays(h, e, offset) && HasAt(bs, at, h + e.name) && next == at + 46 + |e.name|
    requires LocalSays(l, e) && HasAt(bs, offset, l + e.name + e.body) && check(e.body) == e.crc
    ensures Leads(EntryReader(check, bs), at, e, next)
  {
    ReadBodyStep(bs, offset, l, e);
    TakeHeader(bs, at, h, e);
  }

  lemma TakeHeader(bs: seq<Byte>, at: nat, h: seq<Byte>, e: Entry)
    requires |h| == 46 && HasAt(bs, at, h + e.name)
    ensures Take(bs, at, 46) == Some(h) && Take(bs, at + 46, |e.name|) == Some(e.name)
  {
    HasAtSplit(bs, at, h, e.name);
    TakeAt(bs, at, h);
    TakeAt(bs, at + 46, e.name);
  }

  lemma {:induction false} WalkBack(entry: nat -> Option<Located>, es: seq<Entry>, start: nat, i: nat)
    requires i <= |es| && forall j: nat :: j < |es| ==> ReadsAt(entry, es, start, j)
    ensures Walk(entry, start + DirectoryLength(es[..i]), |es| - i) == Some(Directory(Files(es[i..]), start + DirectoryLength(es)))
    decreases |es| - i
  {
    if i == |es| {
      assert es[..i] == es;
    } else {
      assert ReadsAt(entry, es, start, i);
      WalkBack(entry, es, start, i + 1);
      assert es[i..][1..] == es[i + 1..];
    }
  }

  /** Reading an archive gives back exactly the names, bodies and checksums it was built from, in order. */
  lemma ReadBack(check: seq<Byte> -> nat, es: seq<Entry>)
    requires Fits(es) && forall e :: e in es ==> e.crc == check(e.body)
    ensures Read(check, Archive(es)) == Some(Files(es))
  {
    HeadersRead();
    EndFieldsRead(|es|, DirectoryLength(es), TotalLength(es));
    ReadLaidOut(check, LocalHeader, CentralHeader, EndFields(|es|, DirectoryLength(es), TotalLength(es)), es);
  }

  lemma ReadLaidOut(check: seq<Byte> -> nat, local: Entry -> seq<Byte>, central: (Entry, nat) -> seq<Byte>, h: seq<Byte>,
                    es: seq<Entry>)
    requires LocalLaw(local) && CentralLaw(central) && AllFit(es)
    requires EndSays(h, |es|, DirectoryLength(es), TotalLength(es))
    requires forall e :: e in es ==> e.crc == check(e.body)
    ensures Read(check, Locals(local, es) + Central(central, es) + h) == Some(Files(es))
  {
    var front, directory := Locals(local, es), Central(central, es);
    var bs := front + directory + h;
    LocalAt(local, es, 0);
    CentralAt(central, es, 0);
    ThreeParts(front, directory, h);
    forall j: nat | j < |es| ensures ReadsAt(EntryReader(check, bs), es, TotalLength(es), j) {
      assert es[j] in es;
      EntryBack(check, local, central, es, bs, j);
    }
    ReadAll(check, bs, h, es);
  }

  lemma ReadAll(check: seq<Byte> -> nat, bs: seq<Byte>, h: seq<Byte>, es: seq<Entry>)
    requires EndSays(h, |es|, DirectoryLength(es), TotalLength(es))
    requires |bs| == TotalLength(es) + DirectoryLength(es) + 22 && bs[|bs| - 22..] == h
    requires forall j: nat :: j < |es| ==> ReadsAt(EntryReader(check, bs), es, TotalLength(es), j)
    ensures Read(check, bs) == Some(Files(es))
  {
    WalkBack(EntryReader(check, bs), es, TotalLength(es), 0);
    assert es[..0] == [] && es[0..] == es;
    ReadStep(check, bs, h, |es|, DirectoryLength(es), TotalLength(es), Files(es));
  }

  lemma ThreeParts(a: seq<Byte>, b: seq<Byte>, c: seq<Byte>)
    ensures var bs := a + b + c;
            HasAt(bs, 0, a) && HasAt(bs, |a|, b) && bs[|a| + |b|..] == c
  {
  }

  lemma ReadStep(check: seq<Byte> -> nat, bs: seq<Byte>, h: seq<Byte>, total: nat, size: nat, offset: nat, files: seq<File>)
    requires EndSays(h, total, size, offset) && 22 <= |bs| && bs[|bs| - 22..] == h && |bs| == offset + size + 22
    requires Walk(EntryReader(check, bs), offset, total) == Some(Directory(files, offset + size))
    ensures Read(check, bs) == Some(files)
  {
  }

  // ---- Writing headers into buffers ----------------------------------------------------------------------

  /** Raises when the value does not fit; otherwise the buffer is written up to behind the value. */
  method WriteUInt16LE(buf: array<Byte>, value: nat, at: nat) returns (ok: bool)
    requires at + 2 <= buf.Length
    modifies buf
    ensures ok <==> value < LIMIT16
    ensures ok ==> buf[..at + 2] == old(buf[..at]) + LE16(value)
    ensures !ok ==> buf[..] == old(buf[..])
  {
    ok := value < LIMIT16;
    if ok {
      buf[at] := value % 256;
      buf[at + 1] := value / 256;
    }
  }

  method WriteUInt32LE(buf: array<Byte>, value: nat, at: nat) returns (ok: bool)
    requires at + 4 <= buf.Length
    modifies buf
    ensures ok <==> value < LIMIT32
    ensures ok ==> buf[..at + 4] == old(buf[..at]) + LE32(value)
    ensures !ok ==> buf[..] == old(buf[..])
  {
    ok := value < LIMIT32;
    if ok {
      buf[at] := value % 256;
      buf[at + 1] := value / 256 % 256;
      buf[at + 2] := value / 65536 % 256;
      buf[at + 3] := value / 16777216;
    }
  }

  method CopyInto(data: seq<Byte>, buf: array<Byte>, at: nat)
    requires at + |data| <= buf.Length
    modifies buf
    ensures buf[..at + |data|] == old(buf[..at]) + data
  {
    for i := 0 to |data|
      invariant buf[..at + i] == old(buf[..at]) + data[..i]
    {
      buf[at + i] := data[i];
      assert data[..i + 1] == data[..i] + [data[i]];
    }
    assert data[..|data|] == data;
  }

  /** The constant start of a local header. */
  method WriteLocalStart(buf: array<Byte>)
    requires buf.Length >= 14
    modifies buf
    ensures buf[..14] == LE32(LOCAL_SIGNATURE) + LE16(VERSION) + LE16(UTF8_NAMES) + LE16(STORED) + LE16(DOS_TIME) + LE16(DOS_DATE)
  {
    var ok := WriteUInt32LE(buf, LOCAL_SIGNATURE, 0);
    ok := WriteUInt16LE(buf, VERSION, 4);
    ok := WriteUInt16LE(buf, UTF8_NAMES, 6);
    ok := WriteUInt16LE(buf, STORED, 8);
    ok := WriteUInt16LE(buf, DOS_TIME, 10);
    ok := WriteUInt16LE(buf, DOS_DATE, 12);
  }

  /** The constant start of a directory header. */
  method WriteCentralStart(buf: array<Byte>)
    requires buf.Length >= 16
    modifies buf
    ensures buf[..16] == LE32(CENTRAL_SIGNATURE) + LE16(VERSION) + LE16(VERSION) + LE16(UTF8_NAMES) + LE16(STORED) +
                         LE16(DOS_TIME) + LE16(DOS_DATE)
  {
    var ok := WriteUInt32LE(buf, CENTRAL_SIGNATURE, 0);
    ok := WriteUInt16LE(buf, VERSION, 4);
    ok := WriteUInt16LE(buf, VERSION, 6);
    ok := WriteUInt16LE(buf, UTF8_NAMES, 8);
    ok := WriteUInt16LE(buf, STORED, 10);
    ok := WriteUInt16LE(buf, DOS_TIME, 12);
    ok := WriteUInt16LE(buf, DOS_DATE, 14);
  }

  /** The fields for extra data, comment, disk and attributes of a directory header. */
  method WriteCentralZeros(buf: array<Byte>)
    requires buf.Length >= 42
    modifies buf
    ensures buf[..42] == old(buf[..30]) + LE16(0) + LE16(0) + LE16(0) + LE16(0) + LE32(0)
  {
    var ok := WriteUInt16LE(buf, 0, 30);
    ok := WriteUInt16LE(buf, 0, 32);
    ok := WriteUInt16LE(buf, 0, 34);
    ok := WriteUInt16LE(buf, 0, 36);
    ok := WriteUInt32LE(buf, 0, 38);
  }

  method EncodeLocalFileHeader(e: Entry) returns (r: Option<array<Byte>>)
    ensures r.Some? <==> EntryFits(e)
    ensures r.Some? ==> fresh(r.value) && r.value[..] == LocalFields(e) + e.name
  {
    var buf := new Byte[30 + |e.name|](i => 0);
    WriteLocalStart(buf);
    var ok := WriteUInt32LE(buf, e.crc, 14);
    if !ok {
      return None;
    }
    ok := WriteUInt32LE(buf, |e.body|, 18);
    if !ok {
      return None;
    }
    ok := WriteUInt32LE(buf, |e.body|, 22);
    ok := WriteUInt16LE(buf, |e.name|, 26);
    if !ok {
      return None;
    }
    ok := WriteUInt16LE(buf, 0, 28);
    assert buf[..30] == LocalFields(e);
    CopyInto(e.name, buf, 30);
    assert buf[..] == buf[..30 + |e.name|];
    return Some(buf);
  }

  method EncodeCentralDirectoryHeader(e: Entry, offset: nat) returns (r: Option<array<Byte>>)
    ensures r.Some? <==> EntryFits(e) && offset < LIMIT32
    ensures r.Some? ==> fresh(r.value) && r.value[..] == CentralFields(e, offset) + e.name
  {
    var buf := new Byte[46 + |e.name|](i => 0);
    WriteCentralStart(buf);
    var ok := WriteUInt32LE(buf, e.crc, 16);
    if !ok {
      return None;
    }
    ok := WriteUInt32LE(buf, |e.body|, 20);
    if !ok {
      return None;
    }
    ok := WriteUInt32LE(buf, |e.body|, 24);
    ok := WriteUInt16LE(buf, |e.name|, 28);
    if !ok {
      return None;
    }
    WriteCentralZeros(buf);
    ok := WriteUInt32LE(buf, offset, 42);
    if !ok {
      return None;
    }
    assert buf[..46] == CentralFields(e, offset);
    CopyInto(e.name, buf, 46);
    assert buf[..] == buf[..46 + |e.name|];
    return Some(buf);
  }

  /** The constant start of the end record. */
  method WriteEndStart(buf: array<Byte>)
    requires buf.Length >= 8
    modifies buf
    ensures buf[..8] == LE32(END_SIGNATURE) + LE16(0) + LE16(0)
  {
    var ok := WriteUInt32LE(buf, END_SIGNATURE, 0);
    ok := WriteUInt16LE(buf, 0, 4);
    ok := WriteUInt16LE(buf, 0, 6);
  }

  method EncodeEndOfCentralDirectory(total: nat, size: nat, offset: nat) returns (r: Option<array<Byte>>)
    ensures r.Some? <==> total < LIMIT16 && size < LIMIT32 && offset < LIMIT32
    ensures r.Some? ==> fresh(r.value) && r.value[..] == EndFields(total, size, offset)
  {
    var buf := new Byte[22](i => 0);
    WriteEndStart(buf);
    var ok := WriteUInt16LE(buf, total, 8);
    if !ok {
      return None;
    }
    ok := WriteUInt16LE(buf, total, 10);
    ok := WriteUInt32LE(buf, size, 12);
    if !ok {
      return None;
    }
    ok := WriteUInt32LE(buf, offset, 16);
    if !ok {
      return None;
    }
    ok := WriteUInt16LE(buf, 0, 20);
    assert buf[..] == buf[..22];
    return Some(buf);
  }
}
