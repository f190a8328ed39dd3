/** CRC-32 as the runtime computes it, a byte at a time from a table, and as zlib chains it
    (section 8 of RFC 1952). */
module Crc {

  type Bytes = seq<bv8>

  const POLYNOMIAL: bv32 := 0xEDB88320
  const ALL_ONES: bv32 := 0xFFFFFFFF

  /** One bit of the bit-serial register. */
  function Round(c: bv32): bv32 {
    if c & 1 == 1 then POLYNOMIAL ^ (c >> 1) else c >> 1
  }

  function Rounds(c: bv32, n: nat): bv32
    decreases n
  {
    if n == 0 then c else Rounds(Round(c), n - 1)
  }

  // The pieces of a step, named so that a proof need not look into the words.
  function Xor(x: bv32, y: bv32): bv32 { x ^ y }
  function Mixed(crc: bv32, b: bv8): bv32 { crc ^ (b as bv32) }
  function LowByte(x: bv32): bv8 { (x & 0xFF) as bv8 }
  function HighWord(x: bv32): bv32 { x & 0xFFFFFF00 }
  function Widen(b: bv8): bv32 { b as bv32 }
  function Shifted(x: bv32): bv32 { x >> 8 }
  function Half(c: bv32): bv32 { c >> 1 }
  predicate Even(c: bv32) { c & 1 == 0 }

  /** Entry `i` of the table crc32_init_table fills. */
  function TableEntry(i: bv8): bv32 {
    Rounds(Widen(i), 8)
  }

  /** One byte, by the table. */
  function TableStep(crc: bv32, b: bv8): bv32 {
    Xor(TableEntry(LowByte(Mixed(crc, b))), Shifted(crc))
  }

  /** crc32_update: chunks fold into a running value. */
  function Update(crc: bv32, data: Bytes): bv32
    decreases |data|
  {
    if data == [] then crc else Update(TableStep(crc, data[0]), data[1..])
  }

  function Compute(data: Bytes): bv32 {
    Update(ALL_ONES, data) ^ ALL_ONES
  }

  /** The loop of crc32_update. */
  method UpdateLoop(crc: bv32, data: array<bv8>) returns (r: bv32)
    ensures r == Update(crc, data[..])
  {
    hide TableStep;
    r := crc;
    var i := 0;
    while i < data.Length
      invariant 0 <= i <= data.Length
      invariant Update(r, data[i..]) == Update(crc, data[..])
    {
      assert data[i..][0] == data[i] && data[i..][1..] == data[i + 1..];
      r := TableStep(r, data[i]);
      i := i + 1;
    }
    assert data[i..] == [];
  }

  // ---- the table against the bit-serial definition ----

  /** One byte, bit by bit: it enters the low end of the register. */
  function SerialStep(crc: bv32, b: bv8): bv32 {
    Rounds(Mixed(crc, b), 8)
  }

  function Serial(crc: bv32, data: Bytes): bv32
    decreases |data|
  {
    if data == [] then crc else Serial(SerialStep(crc, data[0]), data[1..])
  }

  lemma XorShifts(x: bv32, y: bv32)
    ensures (x ^ y) >> 1 == (x >> 1) ^ (y >> 1)
  {
  }

  lemma XorLowBits(x: bv32, y: bv32)
    ensures (x ^ y) & 1 == (x & 1) ^ (y & 1)
  {
  }

  lemma LowBit(x: bv32)
    ensures x & 1 == 0 || x & 1 == 1
  {
  }

  lemma XorMoves(p: bv32, x: bv32, y: bv32)
    ensures (p ^ x) ^ (p ^ y) == x ^ y && (p ^ x) ^ y == p ^ (x ^ y) && x ^ (p ^ y) == p ^ (x ^ y)
  {
  }

  lemma BitXor()
    ensures (0 as bv32) ^ 0 == 0 && (0 as bv32) ^ 1 == 1 && (1 as bv32) ^ 0 == 1 && (1 as bv32) ^ 1 == 0
  {
  }

  lemma RoundOfXor(x: bv32, y: bv32)
    ensures Round(x ^ y) == Round(x) ^ Round(y)
  {
    XorShifts(x, y);
    XorLowBits(x, y);
    LowBit(x);
    LowBit(y);
    BitXor();
    XorMoves(POLYNOMIAL, x >> 1, y >> 1);
  }

  lemma RoundIsLinear(x: bv32, y: bv32)
    ensures Round(Xor(x, y)) == Xor(Round(x), Round(y))
  {
    hide Round;
    RoundOfXor(x, y);
  }

  lemma {:induction false} RoundsAreLinear(x: bv32, y: bv32, n: nat)
    ensures Rounds(Xor(x, y), n) == Xor(Rounds(x, n), Rounds(y, n))
    decreases n
  {
    hide Round, Xor;
    if n > 0 {
      RoundIsLinear(x, y);
      RoundsAreLinear(Round(x), Round(y), n - 1);
    }
  }

  function Halves(c: bv32, n: nat): bv32
    decreases n
  {
    if n == 0 then c else Halves(Half(c), n - 1)
  }

  predicate LowBitsClear(c: bv32, n: nat)
    decreases n
  {
    n == 0 || (Even(c) && LowBitsClear(Half(c), n - 1))
  }

  lemma EvenRound(c: bv32)
    requires Even(c)
    ensures Round(c) == Half(c)
  {
  }

  /** With its low bits clear, the register just shifts. */
  lemma {:induction false} EvenRounds(c: bv32, n: nat)
    requires LowBitsClear(c, n)
    ensures Rounds(c, n) == Halves(c, n)
    decreases n
  {
    hide Round, Half, Even;
    if n > 0 {
      EvenRound(c);
      EvenRounds(Half(c), n - 1);
    }
  }

  lemma FourHalves(c0: bv32, c1: bv32, c2: bv32, c3: bv32, c4: bv32, n: nat)
    requires c1 == Half(c0) && c2 == Half(c1) && c3 == Half(c2) && c4 == Half(c3)
    ensures Halves(c0, n + 4) == Halves(c4, n)
    ensures Even(c0) && Even(c1) && Even(c2) && Even(c3) && LowBitsClear(c4, n) ==> LowBitsClear(c0, n + 4)
  {
    hide Half, Even;
    assert Halves(c0, n + 4) == Halves(c1, n + 3) == Halves(c2, n + 2) == Halves(c3, n + 1);
    if Even(c0) && Even(c1) && Even(c2) && Even(c3) && LowBitsClear(c4, n) {
      assert LowBitsClear(c3, n + 1);
      assert LowBitsClear(c2, n + 2);
      assert LowBitsClear(c1, n + 3);
    }
  }

  function FourTimes(c: bv32): bv32 { c >> 4 }

  lemma FirstFour(x: bv32)
    ensures var c := HighWord(x);
            && Even(c) && Even(Half(c)) && Even(Half(Half(c))) && Even(Half(Half(Half(c))))
            && Half(Half(Half(Half(c)))) == FourTimes(c)
  {
  }

  lemma LastFour(x: bv32)
    ensures var c := FourTimes(HighWord(x));
            && Even(c) && Even(Half(c)) && Even(Half(Half(c))) && Even(Half(Half(Half(c))))
            && Half(Half(Half(Half(c)))) == Shifted(HighWord(x))
  {
  }

  lemma HighWordShifts(x: bv32)
    ensures Rounds(HighWord(x), 8) == Shifted(HighWord(x))
  {
    hide Rounds, Half, Even, Halves, LowBitsClear, HighWord, Shifted, FourTimes;
    FirstFour(x);
    LastFour(x);
    var c := HighWord(x);
    var d := FourTimes(c);
    FourHalves(c, Half(c), Half(Half(c)), Half(Half(Half(c))), d, 4);
    FourHalves(d, Half(d), Half(Half(d)), Half(Half(Half(d))), Shifted(c), 0);
    NoHalves(Shifted(c));
    EvenRounds(c, 8);
  }

  lemma NoHalves(c: bv32)
    ensures Halves(c, 0) == c && LowBitsClear(c, 0)
  {
  }

  /** A word is its low byte and the rest. */
  lemma Cut(x: bv32)
    ensures Xor(Widen(LowByte(x)), HighWord(x)) == x
  {
  }

  lemma SameHighBytes(crc: bv32, b: bv8)
    ensures Shifted(HighWord(Mixed(crc, b))) == Shifted(crc)
  {
  }

  /** The table looks up eight rounds at once. */
  lemma TableIsSerial(crc: bv32, b: bv8)
    ensures TableStep(crc, b) == SerialStep(crc, b)
  {
    hide Rounds, Xor, Mixed, LowByte, HighWord, Widen, Shifted;
    var x := Mixed(crc, b);
    SameHighBytes(crc, b);
    Cut(x);
    RoundsAreLinear(Widen(LowByte(x)), HighWord(x), 8);
    HighWordShifts(x);
  }

  lemma {:induction false} UpdateIsSerial(crc: bv32, data: Bytes)
    ensures Update(crc, data) == Serial(crc, data)
    decreases |data|
  {
    hide TableStep, SerialStep;
    if data != [] {
      TableIsSerial(crc, data[0]);
      UpdateIsSerial(TableStep(crc, data[0]), data[1..]);
    }
  }

  // ---- chunks ----

  /** Folding chunk after chunk is folding their concatenation. */
  lemma {:induction false} UpdateConcat(crc: bv32, a: Bytes, b: Bytes)
    ensures Update(crc, a + b) == Update(Update(crc, a), b)
    decreases |a|
  {
    hide TableStep;
    if a == [] {
      assert a + b == b;
    } else {
      assert (a + b)[0] == a[0] && (a + b)[1..] == a[1..] + b;
      UpdateConcat(TableStep(crc, a[0]), a[1..], b);
    }
  }

  /** binascii.crc32 with a starting value. */
  function Chain(data: Bytes, crc: bv32): bv32 {
    Update(crc ^ ALL_ONES, data) ^ ALL_ONES
  }

  lemma Complement(x: bv32)
    ensures (x ^ ALL_ONES) ^ ALL_ONES == x && (0 as bv32) ^ ALL_ONES == ALL_ONES
  {
  }

  lemma ChainConcat(a: Bytes, b: Bytes, crc: bv32)
    ensures Chain(b, Chain(a, crc)) == Chain(a + b, crc)
  {
    hide Update;
    Complement(Update(crc ^ ALL_ONES, a));
    UpdateConcat(crc ^ ALL_ONES, a, b);
    assert Chain(a, crc) ^ ALL_ONES == Update(crc ^ ALL_ONES, a);
  }

  function ChainAll(chunks: seq<Bytes>, crc: bv32): bv32
    decreases |chunks|
  {
    if chunks == [] then crc else ChainAll(chunks[1..], Chain(chunks[0], crc))
  }

  function Concat(chunks: seq<Bytes>): Bytes {
    if chunks == [] then [] else chunks[0] + Concat(chunks[1..])
  }

  lemma {:induction false} ChainAllIsChain(chunks: seq<Bytes>, crc: bv32)
    ensures ChainAll(chunks, crc) == Chain(Concat(chunks), crc)
    decreases |chunks|
  {
    hide Update;
    if chunks == [] {
      ChainNothing(crc);
    } else {
      ChainAllIsChain(chunks[1..], Chain(chunks[0], crc));
      ChainConcat(chunks[0], Concat(chunks[1..]), crc);
    }
  }

  lemma ChainNothing(crc: bv32)
    ensures Chain([], crc) == crc
  {
    Complement(crc);
  }

  /** The tool's chain over a function's ranges is the runtime's CRC of their concatenation. */
  lemma ChainedRangesAreWhole(chunks: seq<Bytes>)
    ensures ChainAll(chunks, 0) == Compute(Concat(chunks))
  {
    hide Update, ChainAll, Concat;
    ChainAllIsChain(chunks, 0);
    Complement(0);
  }
}
