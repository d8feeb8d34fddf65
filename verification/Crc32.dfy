/** The table-driven CRC-32 of the NVS image generator (web/app/utils/nvs.ts, lines 22-39). */
module Crc32 {

  const POLYNOMIAL: bv32 := 0xEDB88320

  // -------------------------------------------------------------------------
  // Words
  // -------------------------------------------------------------------------

  function Xor(a: bv32, b: bv32): bv32 { a ^ b }

  function Half(a: bv32): bv32 { a >> 1 }

  function Low(a: bv32): bv32 { a & 1 }

  lemma HalfXor(c: bv32, b: bv32)
    ensures Half(Xor(c, b)) == Xor(Half(c), Half(b))
  {
  }

  lemma LowXor(c: bv32, b: bv32)
    ensures Low(Xor(c, b)) == Low(Xor(c, Low(b)))
  {
  }

  lemma XorAssociates(a: bv32, b: bv32, c: bv32)
    ensures Xor(a, Xor(b, c)) == Xor(Xor(a, b), c)
  {
  }

  lemma XorZero(a: bv32)
    ensures Xor(a, 0) == a
  {
  }

  function LowByte(a: bv32): bv32 { a & 0xFF }

  function HighBytes(a: bv32): bv32 { a & 0xFFFFFF00 }

  function ShiftByte(a: bv32): bv32 { a >> 8 }

  // -------------------------------------------------------------------------
  // The bit-at-a-time register
  // -------------------------------------------------------------------------

  /** One message bit, least significant bit first, into the reflected shift register. */
  function Feed(c: bv32, bit: bv32): bv32 {
    if Low(Xor(c, bit)) == 1 then Xor(POLYNOMIAL, Half(c)) else Half(c)
  }

  /** The lowest `n` bits of `b`. */
  function FeedBits(c: bv32, b: bv32, n: nat): bv32
    decreases n
  {
    if n == 0 then c else FeedBits(Feed(c, Low(b)), Half(b), n - 1)
  }

  /** The register behind a message. */
  function FeedAll(c: bv32, data: seq<bv8>): bv32 {
    if data == [] then c else FeedBits(FeedAll(c, data[..|data| - 1]), data[|data| - 1] as bv32, 8)
  }

  /** The checksum, with the seed 0 and the final inversion. */
  function Checksum(data: seq<bv8>): bv32 {
    Xor(FeedAll(0, data), 0xFFFFFFFF)
  }

  // -------------------------------------------------------------------------
  // The table
  // -------------------------------------------------------------------------

  /** One pass of the table's inner loop. */
  function Step(x: bv32): bv32 {
    if Low(x) == 1 then Xor(POLYNOMIAL, Half(x)) else Half(x)
  }

  function Steps(x: bv32, n: nat): bv32
    decreases n
  {
    if n == 0 then x else Steps(Step(x), n - 1)
  }

  function Halves(x: bv32, n: nat): bv32
    decreases n
  {
    if n == 0 then x else Halves(Half(x), n - 1)
  }

  lemma StepFeeds(c: bv32, b: bv32)
    ensures Step(Xor(c, b)) == Xor(Feed(c, Low(b)), Half(b))
  {
    hide Xor, Half, Low;
    HalfXor(c, b);
    LowXor(c, b);
    XorAssociates(POLYNOMIAL, Half(c), Half(b));
  }

  /** Steps over a word with message bits mixed in feed those bits; the others are shifted down. */
  lemma {:induction false} StepsFeed(c: bv32, b: bv32, n: nat)
    ensures Steps(Xor(c, b), n) == Xor(FeedBits(c, b, n), Halves(b, n))
    decreases n
  {
    hide Xor, Half, Low, Step, Feed;
    if n > 0 {
      StepFeeds(c, b);
      StepsFeed(Feed(c, Low(b)), Half(b), n - 1);
    }
  }

  /** The lowest `n` bits are zero. */
  predicate Clear(b: bv32, n: nat)
    decreases n
  {
    n == 0 || (Low(b) == 0 && Clear(Half(b), n - 1))
  }

  lemma FeedZero(c: bv32)
    ensures Feed(c, 0) == Step(c)
  {
    hide Half, Low;
    XorZero(c);
    hide Xor;
  }

  lemma {:induction false} FeedClear(c: bv32, b: bv32, n: nat)
    requires Clear(b, n)
    ensures FeedBits(c, b, n) == Steps(c, n)
    decreases n
  {
    hide Half, Low, Xor, Feed, Step;
    if n > 0 {
      FeedZero(c);
      FeedClear(Step(c), Half(b), n - 1);
    }
  }

  lemma HalvesOfEight(x: bv32)
    ensures Halves(x, 8) == ShiftByte(x)
  {
    var x1 := Half(x);
    var x2 := Half(x1);
    var x3 := Half(x2);
    var x4 := Half(x3);
    var x5 := Half(x4);
    var x6 := Half(x5);
    var x7 := Half(x6);
    assert Halves(x, 8) == Halves(x1, 7) == Halves(x2, 6) == Halves(x3, 5) == Halves(x4, 4);
    assert Halves(x4, 4) == Halves(x5, 3) == Halves(x6, 2) == Halves(x7, 1) == Half(x7);
  }

  lemma ClearEight(x: bv32)
    requires LowByte(x) == 0
    ensures Clear(x, 8)
  {
    var x1 := Half(x);
    var x2 := Half(x1);
    var x3 := Half(x2);
    var x4 := Half(x3);
    var x5 := Half(x4);
    var x6 := Half(x5);
    var x7 := Half(x6);
    assert Clear(x7, 1);
    assert Clear(x6, 2);
    assert Clear(x5, 3);
    assert Clear(x4, 4);
    assert Clear(x3, 5);
    assert Clear(x2, 6);
    assert Clear(x1, 7);
  }

  lemma SplitByte(x: bv32)
    ensures x == Xor(LowByte(x), HighBytes(x)) && LowByte(HighBytes(x)) == 0
    ensures ShiftByte(HighBytes(x)) == ShiftByte(x)
  {
  }

  lemma ByteIsShort(c: bv32, b: bv8)
    ensures ShiftByte(b as bv32) == 0 && ShiftByte(Xor(c, b as bv32)) == ShiftByte(c)
  {
  }

  /** A byte, mixed into the register, is eight bits fed to it. */
  lemma StepsFeedAByte(c: bv32, b: bv8)
    ensures Steps(Xor(c, b as bv32), 8) == FeedBits(c, b as bv32, 8)
  {
    hide Xor, Steps, FeedBits, Halves, ShiftByte;
    ByteIsShort(c, b);
    HalvesOfEight(b as bv32);
    StepsFeed(c, b as bv32, 8);
    XorZero(FeedBits(c, b as bv32, 8));
  }

  /** One table lookup is eight bits of the register. */
  lemma LookupFeedsAByte(c: bv32, b: bv8)
    ensures Xor(Steps(LowByte(Xor(c, b as bv32)), 8), ShiftByte(c)) == FeedBits(c, b as bv32, 8)
  {
    hide Xor, Steps, FeedBits, Halves, Clear, LowByte, HighBytes, ShiftByte;
    var x := Xor(c, b as bv32);
    var lo, hi := LowByte(x), HighBytes(x);
    SplitByte(x);
    ByteIsShort(c, b);
    StepsFeedAByte(c, b);
    ClearEight(hi);
    HalvesOfEight(hi);
    StepsFeed(lo, hi, 8);
    FeedClear(lo, hi, 8);
  }

  lemma IndexRange(x: bv32)
    requires x < 256
    ensures 0 <= x as int < 256
  {
  }

  lemma IndexIsInjective(x: bv32, y: bv32)
    requires x as int == y as int
    ensures x == y
  {
    assert (x as int) as bv32 == x && (y as int) as bv32 == y;
  }

  ghost predicate IsTable(table: seq<bv32>) {
    |table| == 256 && forall x: bv32 :: x < 256 ==> Entry(table, x) == Steps(x, 8)
  }

  function Entry(table: seq<bv32>, x: bv32): bv32
    requires |table| == 256 && x < 256
  {
    IndexRange(x);
    table[x as int]
  }

  /** The inner loop of the table's construction. */
  method EightSteps(i: bv32) returns (c: bv32)
    ensures c == Steps(i, 8)
  {
    hide Xor, Half, Low;
    c := i;
    for j := 0 to 8
      invariant Steps(c, 8 - j) == Steps(i, 8)
    {
      c := if Low(c) == 1 then Xor(POLYNOMIAL, Half(c)) else Half(c);
    }
  }

  lemma EntryWritten(before: seq<bv32>, i: bv32, c: bv32, x: bv32)
    requires |before| == 256 && i < 256 && x < 256 && i as int < 256
    ensures Entry(before[i as int := c], x) == if x == i then c else Entry(before, x)
  {
    IndexRange(x);
    if x as int == i as int { IndexIsInjective(x, i); }
  }

  method BuildTable() returns (table: array<bv32>)
    ensures IsTable(table[..]) && fresh(table)
  {
    hide Steps, Entry;
    table := new bv32[256];
    var i: bv32 := 0;
    while i < 256
      invariant i <= 256
      invariant forall x: bv32 :: x < i ==> Entry(table[..], x) == Steps(x, 8)
      decreases 256 - i
    {
      var c := EightSteps(i);
      IndexRange(i);
      ghost var before := table[..];
      table[i as int] := c;
      assert table[..] == before[i as int := c];
      forall x: bv32 | x < i + 1 ensures Entry(table[..], x) == Steps(x, 8) {
        EntryWritten(before, i, c, x);
      }
      i := i + 1;
    }
  }

  /** The checksum, one table lookup per byte: it is the bit-at-a-time checksum, for every byte string. */
  method TableChecksum(table: array<bv32>, data: seq<bv8>) returns (crc: bv32)
    requires IsTable(table[..])
    ensures crc == Checksum(data)
  {
    hide Steps, Entry, FeedBits, Xor;
    crc := 0;
    assert data[..0] == [];
    for i := 0 to |data|
      invariant crc == FeedAll(0, data[..i])
    {
      assert data[..i + 1][..i] == data[..i];
      crc := Lookup(table, crc, data[i]);
    }
    assert data[..|data|] == data;
    crc := Xor(crc, 0xFFFFFFFF);
  }

  lemma LowByteRange(x: bv32)
    ensures LowByte(x) < 256
  {
  }

  method Lookup(table: array<bv32>, crc: bv32, b: bv8) returns (r: bv32)
    requires IsTable(table[..])
    ensures r == FeedBits(crc, b as bv32, 8)
  {
    var x := LowByte(Xor(crc, b as bv32));
    LowByteRange(Xor(crc, b as bv32));
    IndexRange(x);
    LookupFeedsAByte(crc, b);
    hide Xor, Steps, FeedBits, LowByte, ShiftByte;
    assert table[x as int] == Entry(table[..], x);
    r := Xor(table[x as int], ShiftByte(crc));
  }

  // -------------------------------------------------------------------------
  // Errors in one byte are detected
  // -------------------------------------------------------------------------

  lemma TopBit(x: bv32)
    ensures Low(x) == 1 ==> Xor(POLYNOMIAL, Half(x)) & 0x80000000 == 0x80000000
    ensures Low(x) != 1 ==> Half(x) & 0x80000000 == 0
  {
  }

  lemma LowIsABit(x: bv32)
    ensures Low(x) == 0 || Low(x) == 1
  {
  }

  lemma XorCancels(p: bv32, x: bv32, y: bv32)
    requires Xor(p, x) == Xor(p, y)
    ensures x == y
  {
    XorAssociates(p, p, x);
    XorAssociates(p, p, y);
    XorSelf(p);
    ZeroXor(x);
    ZeroXor(y);
    hide Xor;
  }

  lemma XorSelf(p: bv32)
    ensures Xor(p, p) == 0
  {
  }

  lemma ZeroXor(x: bv32)
    ensures Xor(0, x) == x
  {
  }

  /** The register loses nothing: different registers stay different. */
  lemma StepIsInjective(x: bv32, y: bv32)
    requires Step(x) == Step(y)
    ensures x == y
  {
    TopBit(x);
    TopBit(y);
    LowIsABit(x);
    LowIsABit(y);
    hide Xor, Half, Low;
    if Low(x) == 1 && Low(y) == 1 { XorCancels(POLYNOMIAL, Half(x), Half(y)); }
    HalfIsInjectiveIf(x, y);
  }

  lemma HalfIsInjectiveIf(x: bv32, y: bv32)
    ensures Half(x) == Half(y) && Low(x) == Low(y) ==> x == y
  {
  }

  lemma {:induction false} StepsAreInjective(x: bv32, y: bv32, n: nat)
    requires Steps(x, n) == Steps(y, n)
    ensures x == y
    decreases n
  {
    hide Step;
    if n > 0 {
      StepsAreInjective(Step(x), Step(y), n - 1);
      StepIsInjective(x, y);
    }
  }

  lemma SameByte(b: bv8, x: bv8)
    requires b as bv32 == x as bv32
    ensures b == x
  {
  }

  lemma XorCommutes(a: bv32, b: bv32)
    ensures Xor(a, b) == Xor(b, a)
  {
  }

  /** Another byte, or another register, never ends in the same register. */
  lemma FeedingIsInjective(c: bv32, b: bv8, c': bv32, b': bv8)
    requires FeedBits(c, b as bv32, 8) == FeedBits(c', b' as bv32, 8)
    ensures c == c' ==> b == b'
    ensures b == b' ==> c == c'
  {
    hide Xor, FeedBits, Steps;
    StepsFeedAByte(c, b);
    StepsFeedAByte(c', b');
    StepsAreInjective(Xor(c, b as bv32), Xor(c', b' as bv32), 8);
    if c == c' {
      XorCancels(c, b as bv32, b' as bv32);
      SameByte(b, b');
    } else if b == b' {
      XorCommutes(c, b as bv32);
      XorCommutes(c', b as bv32);
      XorCancels(b as bv32, c, c');
    }
  }

  lemma {:induction false} RegistersDiffer(c: bv32, data: seq<bv8>, i: nat, x: bv8)
    requires i < |data| && data[i] != x
    ensures FeedAll(c, data) != FeedAll(c, data[i := x])
    decreases |data|
  {
    hide FeedBits;
    var changed, n := data[i := x], |data| - 1;
    if i == n {
      assert changed[..n] == data[..n];
      var before := FeedAll(c, data[..n]);
      if FeedAll(c, data) == FeedAll(c, changed) { FeedingIsInjective(before, data[n], before, x); }
    } else {
      assert changed[..n] == data[..n][i := x] && changed[n] == data[n];
      RegistersDiffer(c, data[..n], i, x);
      if FeedAll(c, data) == FeedAll(c, changed) {
        FeedingIsInjective(FeedAll(c, data[..n]), data[n], FeedAll(c, changed[..n]), data[n]);
      }
    }
  }

  /** A change in one byte changes the checksum. */
  lemma OneByteErrorsAreDetected(data: seq<bv8>, i: nat, x: bv8)
    requires i < |data| && data[i] != x
    ensures Checksum(data[i := x]) != Checksum(data)
  {
    hide Xor, FeedAll;
    RegistersDiffer(0, data, i, x);
    if Checksum(data[i := x]) == Checksum(data) {
      XorCommutes(FeedAll(0, data), 0xFFFFFFFF);
      XorCommutes(FeedAll(0, data[i := x]), 0xFFFFFFFF);
      XorCancels(0xFFFFFFFF, FeedAll(0, data), FeedAll(0, data[i := x]));
    }
  }
}
