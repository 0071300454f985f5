/** The CRC-32 of the ZIP format: the table-driven loop against bit-at-a-time division. */
module Crc32 {
  type Byte = x: int | 0 <= x < 256

  const POLYNOMIAL: bv32 := 0xedb88320

  /** A byte as the low eight bits of a word. */
  function Bits(b: Byte): bv32 {
    (b as bv8) as bv32
  }

  lemma NextByte(v: bv8)
    requires v as nat < 255
    ensures (v + 1) as nat == v as nat + 1
  {
  }

  lemma {:induction false} ByteBack(b: nat) returns (v: bv8)
    requires b < 256
    ensures v as nat == b && b as bv8 == v
  {
    if b == 0 {
      v := 0;
    } else {
      var w := ByteBack(b - 1);
      NextByte(w);
      v := w + 1;
    }
    WordBack(v);
  }

  lemma WordBack(v: bv8)
    ensures (v as nat) as bv8 == v
  {
  }

  lemma BitsInjective(a: Byte, b: Byte)
    requires Bits(a) == Bits(b)
    ensures a == b
  {
    var v := ByteBack(a);
    var w := ByteBack(b);
    Narrow(v, w);
  }

  lemma Narrow(x: bv8, y: bv8)
    requires x as bv32 == y as bv32
    ensures x == y
  {
  }

  // ---- The definition: one bit at a time, least significant bit first -------------------

  /** The register after one message bit, the lowest of `bit`. */
  function FeedBit(c: bv32, bit: bv32): bv32 {
    if (c ^ bit) & 1 != 0 then POLYNOMIAL ^ (c >> 1) else c >> 1
  }

  function Half(x: bv32): bv32 {
    x >> 1
  }

  /** Feeds the lowest `n` bits of `b`. */
  function FeedBits<T>(feed: (T, T) -> T, half: T -> T, c: T, b: T, n: nat): T
    decreases n
  {
    if n == 0 then c else FeedBits(feed, half, feed(c, b), half(b), n - 1)
  }

  function FeedByte(c: bv32, b: Byte): bv32 {
    FeedBits(FeedBit, Half, c, Bits(b), 8)
  }

  /** The register after all bytes; `feed` is `FeedByte`. */
  function Register<T>(feed: (T, Byte) -> T, c: T, data: seq<Byte>): T {
    if data == [] then c else feed(Register(feed, c, data[..|data| - 1]), data[|data| - 1])
  }

  /** Section 4.4.7 of PKWARE APPNOTE: the register starts with all ones and is complemented at the end. */
  function Checksum(data: seq<Byte>): bv32 {
    Register(FeedByte, 0xffffffff, data) ^ 0xffffffff
  }

  // ---- One step ---------------------------------------------------------------------------------

  /** One division step without a message bit. */
  function Step(c: bv32): bv32 {
    if c & 1 != 0 then POLYNOMIAL ^ (c >> 1) else c >> 1
  }

  lemma OddOdd(x: bv32, y: bv32)
    requires x & 1 != 0 && y & 1 != 0
    ensures Step(x ^ y) == Step(x) ^ Step(y)
  {
  }

  lemma OddEven(x: bv32, y: bv32)
    requires x & 1 != 0 && y & 1 == 0
    ensures Step(x ^ y) == Step(x) ^ Step(y)
  {
  }

  lemma EvenOdd(x: bv32, y: bv32)
    requires x & 1 == 0 && y & 1 != 0
    ensures Step(x ^ y) == Step(x) ^ Step(y)
  {
  }

  lemma EvenEven(x: bv32, y: bv32)
    requires x & 1 == 0 && y & 1 == 0
    ensures Step(x ^ y) == Step(x) ^ Step(y)
  {
  }

  function Xor(x: bv32, y: bv32): bv32 {
    x ^ y
  }

  ghost predicate Linear<T(!new)>(add: (T, T) -> T, f: T -> T) {
    forall x, y :: f(add(x, y)) == add(f(x), f(y))
  }

  lemma StepIsLinear()
    ensures Linear(Xor, Step)
  {
    forall x: bv32, y: bv32 ensures Step(Xor(x, y)) == Xor(Step(x), Step(y)) {
      if x & 1 != 0 {
        if y & 1 != 0 {
          OddOdd(x, y);
        } else {
          OddEven(x, y);
        }
      } else {
        if y & 1 != 0 {
          EvenOdd(x, y);
        } else {
          EvenEven(x, y);
        }
      }
    }
  }

  /** The generator's highest bit is set, so a step loses nothing. */
  lemma StepLosesNothing(x: bv32)
    requires Step(x) == 0
    ensures x == 0
  {
  }

  lemma FeedOdd(c: bv32, b: bv32)
    requires (c ^ b) & 1 != 0
    ensures FeedBit(c, b) ^ (b >> 1) == Step(c ^ b)
  {
  }

  lemma FeedEven(c: bv32, b: bv32)
    requires (c ^ b) & 1 == 0
    ensures FeedBit(c, b) ^ (b >> 1) == Step(c ^ b)
  {
  }

  /** Feeding a bit is adding the whole byte beforehand and stepping. */
  ghost predicate FeedsBySteps<T(!new)>(add: (T, T) -> T, feed: (T, T) -> T, half: T -> T, step: T -> T) {
    forall c, b :: add(feed(c, b), half(b)) == step(add(c, b))
  }

  lemma FeedIsStep()
    ensures FeedsBySteps(Xor, FeedBit, Half, Step)
  {
    forall c: bv32, b: bv32 ensures Xor(FeedBit(c, b), Half(b)) == Step(Xor(c, b)) {
      if (c ^ b) & 1 != 0 {
        FeedOdd(c, b);
      } else {
        FeedEven(c, b);
      }
    }
  }

  // ---- Eight steps ---------------------------------------------------------------------------------

  function Iterate<T>(f: T -> T, c: T, n: nat): T
    decreases n
  {
    if n == 0 then c else Iterate(f, f(c), n - 1)
  }

  lemma {:induction false} IterateIsLinear<T(!new)>(add: (T, T) -> T, f: T -> T, x: T, y: T, n: nat)
    requires Linear(add, f)
    ensures Iterate(f, add(x, y), n) == add(Iterate(f, x, n), Iterate(f, y, n))
    decreases n
  {
    if n > 0 {
      IterateIsLinear(add, f, f(x), f(y), n - 1);
    }
  }

  ghost predicate OneToOne<S(!new), T>(f: S -> T) {
    forall x, y :: f(x) == f(y) ==> x == y
  }

  lemma {:induction false} IterateIsOneToOne<T(!new)>(f: T -> T, x: T, y: T, n: nat)
    requires OneToOne(f) && Iterate(f, x, n) == Iterate(f, y, n)
    ensures x == y
    decreases n
  {
    if n > 0 {
      IterateIsOneToOne(f, f(x), f(y), n - 1);
    }
  }

  lemma {:induction false} FeedsAreSteps<T(!new)>(add: (T, T) -> T, feed: (T, T) -> T, half: T -> T, step: T -> T, c: T, b: T, n: nat)
    requires FeedsBySteps(add, feed, half, step)
    ensures add(FeedBits(feed, half, c, b, n), Iterate(half, b, n)) == Iterate(step, add(c, b), n)
    decreases n
  {
    if n > 0 {
      FeedsAreSteps(add, feed, half, step, feed(c, b), half(b), n - 1);
    }
  }

  // ---- Shifts ---------------------------------------------------------------------------------------

  /** `x >> k` for at most eight places. */
  function Shr(x: bv32, k: nat): bv32 {
    match k
    case 0 => x
    case 1 => x >> 1
    case 2 => x >> 2
    case 3 => x >> 3
    case 4 => x >> 4
    case 5 => x >> 5
    case 6 => x >> 6
    case 7 => x >> 7
    case _ => x >> 8
  }

  function Low(x: bv32): bv32 {
    x & 0xff
  }

  function High(x: bv32): bv32 {
    x & 0xffffff00
  }

  predicate Even(x: bv32) {
    x & 1 == 0
  }

  lemma ShrStep(x: bv32, k: nat)
    requires k < 8
    ensures Half(Shr(x, k)) == Shr(x, k + 1)
  {
    match k
    case 0 => Shr0(x);
    case 1 => Shr1(x);
    case 2 => Shr2(x);
    case 3 => Shr3(x);
    case 4 => Shr4(x);
    case 5 => Shr5(x);
    case 6 => Shr6(x);
    case 7 => Shr7(x);
  }

  lemma Shr0(x: bv32)
    ensures Half(Shr(x, 0)) == Shr(x, 1)
  {
  }

  lemma Shr1(x: bv32)
    ensures Half(Shr(x, 1)) == Shr(x, 2)
  {
  }

  lemma Shr2(x: bv32)
    ensures Half(Shr(x, 2)) == Shr(x, 3)
  {
  }

  lemma Shr3(x: bv32)
    ensures Half(Shr(x, 3)) == Shr(x, 4)
  {
  }

  lemma Shr4(x: bv32)
    ensures Half(Shr(x, 4)) == Shr(x, 5)
  {
  }

  lemma Shr5(x: bv32)
    ensures Half(Shr(x, 5)) == Shr(x, 6)
  {
  }

  lemma Shr6(x: bv32)
    ensures Half(Shr(x, 6)) == Shr(x, 7)
  {
  }

  lemma Shr7(x: bv32)
    ensures Half(Shr(x, 7)) == Shr(x, 8)
  {
  }

  lemma HighIsEven(x: bv32, k: nat)
    requires k < 8
    ensures Even(Shr(High(x), k))
  {
    match k
    case 0 =>
    case 1 =>
    case 2 =>
    case 3 =>
    case 4 =>
    case 5 =>
    case 6 =>
    case 7 =>
  }

  // ---- The laws of words that table look-up rests on --------------------------------------------------

  /** The operations on words, so that what follows from their laws can be shown without looking at bits. */
  datatype Ops<!T> = Ops(
    add: (T, T) -> T,
    zero: T,
    feed: (T, T) -> T,
    half: T -> T,
    step: T -> T,
    shr: (T, nat) -> T,
    low: T -> T,
    high: T -> T,
    even: T -> bool)

  ghost predicate ZeroLaw<T(!new)>(o: Ops<T>) {
    forall x :: o.add(x, o.zero) == x
  }

  ghost predicate EvenLaw<T(!new)>(o: Ops<T>) {
    forall x :: o.even(x) ==> o.step(x) == o.half(x)
  }

  ghost predicate ShiftLaw<T(!new)>(o: Ops<T>) {
    forall x, k: nat :: k < 8 ==> o.half(o.shr(x, k)) == o.shr(x, k + 1)
  }

  ghost predicate StartLaw<T(!new)>(o: Ops<T>) {
    forall x :: o.shr(x, 0) == x
  }

  ghost predicate SplitLaw<T(!new)>(o: Ops<T>) {
    forall x :: o.add(o.low(x), o.high(x)) == x && o.shr(o.high(x), 8) == o.shr(x, 8)
  }

  ghost predicate HighLaw<T(!new)>(o: Ops<T>) {
    forall x, k: nat :: k < 8 ==> o.even(o.shr(o.high(x), k))
  }

  function Words(): Ops<bv32> {
    Ops(Xor, 0, FeedBit, Half, Step, Shr, Low, High, Even)
  }

  lemma EvenStep(x: bv32)
    requires Even(x)
    ensures Step(x) == Half(x)
  {
  }

  lemma LowAndHigh(x: bv32)
    ensures Xor(Low(x), High(x)) == x && Shr(High(x), 8) == Shr(x, 8)
  {
  }

  lemma XorZero(x: bv32)
    ensures Xor(x, 0) == x && Shr(x, 0) == x
  {
  }

  lemma {:induction false} HalvesAreShift<T(!new)>(o: Ops<T>, x: T, k: nat)
    requires ShiftLaw(o) && k <= 8
    ensures Iterate(o.half, o.shr(x, k), 8 - k) == o.shr(x, 8)
    decreases 8 - k
  {
    if k < 8 {
      HalvesAreShift(o, x, k + 1);
    }
  }

  /** A register whose low byte is zero is only shifted. */
  lemma {:induction false} StepsOfHigh<T(!new)>(o: Ops<T>, x: T, k: nat)
    requires EvenLaw(o) && ShiftLaw(o) && HighLaw(o) && k <= 8
    ensures Iterate(o.step, o.shr(o.high(x), k), 8 - k) == o.shr(o.high(x), 8)
    decreases 8 - k
  {
    if k < 8 {
      assert o.step(o.shr(o.high(x), k)) == o.shr(o.high(x), k + 1);
      StepsOfHigh(o, x, k + 1);
    }
  }

  /** Eight steps are one look-up of the low byte and a shift. */
  lemma EightStepsLookup<T(!new)>(o: Ops<T>, x: T)
    requires Linear(o.add, o.step) && EvenLaw(o) && ShiftLaw(o) && StartLaw(o) && SplitLaw(o) && HighLaw(o)
    ensures Iterate(o.step, x, 8) == o.add(Iterate(o.step, o.low(x), 8), o.shr(x, 8))
  {
    IterateIsLinear(o.add, o.step, o.low(x), o.high(x), 8);
    StepsOfHigh(o, x, 0);
  }

  ghost predicate Lawful<T(!new)>(o: Ops<T>) {
    && Linear(o.add, o.step) && EvenLaw(o) && ShiftLaw(o) && StartLaw(o) && SplitLaw(o) && HighLaw(o)
    && FeedsBySteps(o.add, o.feed, o.half, o.step) && ZeroLaw(o)
  }

  /** Feeding a byte is one look-up. */
  lemma FeedByLookup<T(!new)>(o: Ops<T>, c: T, b: T)
    requires Lawful(o) && o.shr(b, 8) == o.zero && o.shr(o.add(c, b), 8) == o.shr(c, 8)
    ensures FeedBits(o.feed, o.half, c, b, 8) == o.add(Iterate(o.step, o.low(o.add(c, b)), 8), o.shr(c, 8))
  {
    FeedsAreSteps(o.add, o.feed, o.half, o.step, c, b, 8);
    HalvesAreShift(o, b, 0);
    EightStepsLookup(o, o.add(c, b));
  }

  lemma WordsAreLawful()
    ensures Lawful(Words())
  {
    StepIsLinear();
    FeedIsStep();
    WordsShift();
    WordsSplit();
    WordsAreEven();
  }

  lemma WordsShift()
    ensures ShiftLaw(Words()) && StartLaw(Words()) && ZeroLaw(Words())
  {
    forall x: bv32 ensures Xor(x, 0) == x && Shr(x, 0) == x {
      XorZero(x);
    }
    forall x: bv32, k: nat | k < 8 ensures Half(Shr(x, k)) == Shr(x, k + 1) {
      ShrStep(x, k);
    }
  }

  lemma WordsSplit()
    ensures SplitLaw(Words())
  {
    forall x: bv32 ensures Xor(Low(x), High(x)) == x && Shr(High(x), 8) == Shr(x, 8) {
      LowAndHigh(x);
    }
  }

  lemma WordsAreEven()
    ensures EvenLaw(Words()) && HighLaw(Words())
  {
    forall x: bv32 | Even(x) ensures Step(x) == Half(x) {
      EvenStep(x);
    }
    forall x: bv32, k: nat | k < 8 ensures Even(Shr(High(x), k)) {
      HighIsEven(x, k);
    }
  }

  lemma BitsShiftOut(c: bv32, b: bv8)
    ensures Shr(b as bv32, 8) == 0 && Shr(Xor(c, b as bv32), 8) == Shr(c, 8)
  {
  }

  /** What the table holds for a byte value. */
  function Entry(v: bv32): bv32 {
    Iterate(Step, v, 8)
  }

  /** A byte through the table. */
  lemma ByteThroughTable(c: bv32, b: Byte)
    ensures FeedByte(c, b) == Xor(Entry(Low(Xor(c, Bits(b)))), Shr(c, 8))
  {
    WordsAreLawful();
    BitsShiftOut(c, b as bv8);
    FeedByLookup(Words(), c, Bits(b));
  }

  // ---- The table-driven loop ------------------------------------------------------------------------

  /** The table's content at `k`. */
  function EntryAt(k: nat): bv32 {
    if k < 256 then Entry(k as bv32) else 0
  }

  function Entries<T>(at: nat -> T, n: nat): seq<T> {
    if n == 0 then [] else Entries(at, n - 1) + [at(n - 1)]
  }

  lemma {:induction false} EntriesAt<T>(at: nat -> T, n: nat, k: nat)
    requires k < n
    ensures |Entries(at, n)| == n && Entries(at, n)[k] == at(k)
  {
    if k < n - 1 {
      EntriesAt(at, n - 1, k);
    } else {
      EntriesLength(at, n - 1);
    }
  }

  lemma {:induction false} EntriesLength<T>(at: nat -> T, n: nat)
    ensures |Entries(at, n)| == n
  {
    if n > 0 {
      EntriesLength(at, n - 1);
    }
  }

  ghost predicate IsTable(table: array<bv32>)
    reads table
  {
    table.Length == 256 && table[..] == Entries(EntryAt, table.Length)
  }

  lemma LowIndex(x: bv32)
    ensures Low(x) as nat < 256
  {
  }

  lemma IndexBack(v: bv32)
    ensures (v as nat) as bv32 == v
  {
  }

  method TableEntry(i: nat) returns (c: bv32)
    requires i < 256
    ensures c == EntryAt(i)
  {
    c := i as bv32;
    for k := 0 to 8
      invariant Iterate(Step, c, 8 - k) == Entry(i as bv32)
    {
      c := if c & 1 != 0 then 0xedb88320 ^ (c >> 1) else c >> 1;
    }
  }

  method FillTable(table: array<bv32>)
    requires table.Length <= 256
    modifies table
    ensures table[..] == Entries(EntryAt, table.Length)
  {
    for i := 0 to table.Length
      invariant table[..i] == Entries(EntryAt, i)
    {
      var entry := TableEntry(i);
      table[i] := entry;
      assert table[..i + 1] == table[..i] + [entry];
    }
    assert table[..] == table[..table.Length];
  }

  method BuildTable() returns (table: array<bv32>)
    ensures fresh(table) && IsTable(table)
  {
    table := new bv32[256];
    FillTable(table);
  }

  lemma TableAt(table: array<bv32>, v: bv32)
    requires IsTable(table) && v as nat < 256
    ensures table[v as nat] == Entry(v)
  {
    EntriesAt(EntryAt, table.Length, v as nat);
    IndexBack(v);
    assert table[..][v as nat] == table[v as nat];
  }

  method Lookup(table: array<bv32>, c: bv32, b: Byte) returns (r: bv32)
    requires IsTable(table)
    ensures r == FeedByte(c, b)
  {
    ByteThroughTable(c, b);
    var low := Low(Xor(c, Bits(b)));
    LowIndex(Xor(c, Bits(b)));
    TableAt(table, low);
    r := Xor(table[low as nat], Shr(c, 8));
  }

  /** The table-driven checksum is the bit-at-a-time one, for every byte sequence. */
  method ComputeCrc32(table: array<bv32>, data: seq<Byte>) returns (crc: bv32)
    requires IsTable(table)
    ensures crc == Checksum(data)
  {
    var c: bv32 := 0xffffffff;
    for i := 0 to |data|
      invariant c == Register(FeedByte, 0xffffffff, data[..i])
    {
      assert data[..i + 1][..i] == data[..i];
      c := Lookup(table, c, data[i]);
    }
    assert data[..|data|] == data;
    crc := c ^ 0xffffffff;
  }

  method Crc32Of(data: seq<Byte>) returns (crc: bv32)
    ensures crc == Checksum(data)
  {
    var table := BuildTable();
    crc := ComputeCrc32(table, data);
  }

  // ---- What the checksum detects ------------------------------------------------------------------------

  lemma XorCancels(x: bv32, y: bv32, z: bv32)
    ensures Xor(x, y) == 0 ==> x == y
    ensures Xor(x, z) == Xor(y, z) ==> x == y
    ensures Xor(z, x) == Xor(z, y) ==> x == y
    ensures Xor(x, x) == 0
  {
  }

  lemma StepIsOneToOne()
    ensures OneToOne(Step)
  {
    StepIsLinear();
    forall x: bv32, y: bv32 | Step(x) == Step(y) ensures x == y {
      XorCancels(Step(x), Step(y), 0);
      assert Step(Xor(x, y)) == Xor(Step(x), Step(y)) == 0;
      StepLosesNothing(Xor(x, y));
      XorCancels(x, y, 0);
    }
  }

  lemma FeedAsSteps<T(!new)>(o: Ops<T>, c: T, b: T)
    requires FeedsBySteps(o.add, o.feed, o.half, o.step) && ShiftLaw(o) && StartLaw(o) && ZeroLaw(o) && o.shr(b, 8) == o.zero
    ensures FeedBits(o.feed, o.half, c, b, 8) == Iterate(o.step, o.add(c, b), 8)
  {
    FeedsAreSteps(o.add, o.feed, o.half, o.step, c, b, 8);
    HalvesAreShift(o, b, 0);
  }

  /** From equal registers only the sum of register and byte can have differed. */
  lemma FeedByteCancels(c: bv32, b: Byte, e: bv32, f: Byte)
    requires FeedByte(c, b) == FeedByte(e, f)
    ensures Xor(c, Bits(b)) == Xor(e, Bits(f))
  {
    FeedByteIsSteps(c, b);
    FeedByteIsSteps(e, f);
    StepIsOneToOne();
    IterateIsOneToOne(Step, Xor(c, Bits(b)), Xor(e, Bits(f)), 8);
  }

  lemma FeedByteIsSteps(c: bv32, b: Byte)
    ensures FeedByte(c, b) == Iterate(Step, Xor(c, Bits(b)), 8)
  {
    FeedIsStep();
    WordsShift();
    BitsShiftOut(c, b as bv8);
    FeedAsSteps(Words(), c, Bits(b));
  }

  lemma {:induction false} RegisterConcat<T>(feed: (T, Byte) -> T, c: T, a: seq<Byte>, b: seq<Byte>)
    ensures Register(feed, c, a + b) == Register(feed, Register(feed, c, a), b)
  {
    if b == [] {
      assert a + b == a;
    } else {
      assert (a + b)[..|a + b| - 1] == a + b[..|b| - 1];
      RegisterConcat(feed, c, a, b[..|b| - 1]);
    }
  }

  /** Different registers stay different over the same bytes. */
  lemma {:induction false} RegistersStayApart<T(!new)>(feed: (T, Byte) -> T, c: T, e: T, data: seq<Byte>)
    requires forall x, y, b :: feed(x, b) == feed(y, b) ==> x == y
    requires Register(feed, c, data) == Register(feed, e, data)
    ensures c == e
  {
    if data != [] {
      var init := data[..|data| - 1];
      assert feed(Register(feed, c, init), data[|data| - 1]) == feed(Register(feed, e, init), data[|data| - 1]);
      RegistersStayApart(feed, c, e, init);
    }
  }

  lemma FeedByteKeepsApart()
    ensures forall x, y, b :: FeedByte(x, b) == FeedByte(y, b) ==> x == y
  {
    forall x: bv32, y: bv32, b: Byte | FeedByte(x, b) == FeedByte(y, b) ensures x == y {
      FeedByteCancels(x, b, y, b);
      XorCancels(x, y, Bits(b));
    }
  }

  lemma RegisterOfOne<T>(feed: (T, Byte) -> T, c: T, b: Byte)
    ensures Register(feed, c, [b]) == feed(c, b)
  {
    assert [b][..0] == [];
  }

  /** Changing one byte anywhere changes the checksum. */
  lemma ByteChangeIsDetected(before: seq<Byte>, b: Byte, f: Byte, after: seq<Byte>)
    requires b != f
    ensures Checksum(before + [b] + after) != Checksum(before + [f] + after)
  {
    if Checksum(before + [b] + after) == Checksum(before + [f] + after) {
      var c := Register(FeedByte, 0xffffffff, before);
      SameChecksum(before + [b] + after, before + [f] + after);
      RegisterConcat(FeedByte, 0xffffffff, before + [b], after);
      RegisterConcat(FeedByte, 0xffffffff, before + [f], after);
      RegisterConcat(FeedByte, 0xffffffff, before, [b]);
      RegisterConcat(FeedByte, 0xffffffff, before, [f]);
      RegisterOfOne(FeedByte, c, b);
      RegisterOfOne(FeedByte, c, f);
      FeedByteKeepsApart();
      RegistersStayApart(FeedByte, FeedByte(c, b), FeedByte(c, f), after);
      FeedByteCancels(c, b, c, f);
      XorCancels(Bits(b), Bits(f), c);
      BitsInjective(b, f);
    }
  }

  lemma SameChecksum(a: seq<Byte>, b: seq<Byte>)
    requires Checksum(a) == Checksum(b)
    ensures Register(FeedByte, 0xffffffff, a) == Register(FeedByte, 0xffffffff, b)
  {
    XorCancels(Register(FeedByte, 0xffffffff, a), Register(FeedByte, 0xffffffff, b), 0xffffffff);
  }

  // ---- The check value ---------------------------------------------------------------------------

  const DIGITS: seq<Byte> := [0x31, 0x32, 0x33, 0x34, 0x35, 0x36, 0x37, 0x38, 0x39]

  const REGISTERS: seq<bv32> := [
    0xffffffff, 0x7c231048, 0xb0acbb32, 0x77b79c2d, 0x641c1f5c,
    0x340ac5e3, 0xf68d2c9e, 0xaffc9660, 0x651f2550, 0x340bc6d9]

  /** `registers` are those after each further byte of `data`. */
  ghost predicate Traces<T(!new)>(feed: (T, Byte) -> T, data: seq<Byte>, registers: seq<T>) {
    |registers| == |data| + 1 && forall i :: 0 <= i < |data| ==> feed(registers[i], data[i]) == registers[i + 1]
  }

  lemma {:induction false} LastRegister<T(!new)>(feed: (T, Byte) -> T, data: seq<Byte>, registers: seq<T>)
    requires Traces(feed, data, registers)
    ensures Register(feed, registers[0], data) == registers[|data|]
  {
    if data != [] {
      LastRegister(feed, data[..|data| - 1], registers[..|data|]);
    }
  }

  lemma Digit1()
    ensures FeedByte(0xffffffff, 0x31) == 0x7c231048
  {
    assert Bits(0x31) == 0x31;
  }

  lemma Digit2()
    ensures FeedByte(0x7c231048, 0x32) == 0xb0acbb32
  {
    assert Bits(0x32) == 0x32;
  }

  lemma Digit3()
    ensures FeedByte(0xb0acbb32, 0x33) == 0x77b79c2d
  {
    assert Bits(0x33) == 0x33;
  }

  lemma Digit4()
    ensures FeedByte(0x77b79c2d, 0x34) == 0x641c1f5c
  {
    assert Bits(0x34) == 0x34;
  }

  lemma Digit5()
    ensures FeedByte(0x641c1f5c, 0x35) == 0x340ac5e3
  {
    assert Bits(0x35) == 0x35;
  }

  lemma Digit6()
    ensures FeedByte(0x340ac5e3, 0x36) == 0xf68d2c9e
  {
    assert Bits(0x36) == 0x36;
  }

  lemma Digit7()
    ensures FeedByte(0xf68d2c9e, 0x37) == 0xaffc9660
  {
    assert Bits(0x37) == 0x37;
  }

  lemma Digit8()
    ensures FeedByte(0xaffc9660, 0x38) == 0x651f2550
  {
    assert Bits(0x38) == 0x38;
  }

  lemma Digit9()
    ensures FeedByte(0x651f2550, 0x39) == 0x340bc6d9
  {
    assert Bits(0x39) == 0x39;
  }

  lemma DigitsTrace()
    ensures Traces(FeedByte, DIGITS, REGISTERS)
  {
    forall i | 0 <= i < 9 ensures FeedByte(REGISTERS[i], DIGITS[i]) == REGISTERS[i + 1] {
      match i
      case 0 => Digit1();
      case 1 => Digit2();
      case 2 => Digit3();
      case 3 => Digit4();
      case 4 => Digit5();
      case 5 => Digit6();
      case 6 => Digit7();
      case 7 => Digit8();
      case 8 => Digit9();
    }
  }

  lemma ChecksumOf(data: seq<Byte>, registers: seq<bv32>)
    requires Traces(FeedByte, data, registers) && registers[0] == 0xffffffff
    ensures Checksum(data) == registers[|data|] ^ 0xffffffff
  {
    LastRegister(FeedByte, data, registers);
  }

  /** The checksum of the digits 1 to 9 is the check value that catalogues give for this CRC. */
  lemma CheckValue()
    ensures Checksum(DIGITS) == 0xcbf43926
  {
    DigitsTrace();
    ChecksumOf(DIGITS, REGISTERS);
  }
}
