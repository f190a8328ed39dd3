/** The unaligned load and store pairs: lwl at a + 3 with lwr at a, and swl with swr, as the
    emitted helper functions do them, for every address (the pair may wrap around the end
    of the address space). */
module UnalignedPairs {
  import opened Words
  import opened Isa
  import opened Translate

  function PairLoad(m: Memory, a: Word, rt: Word): Word {
    LwrHelper(m, a, LwlHelper(m, Wrap(a + 3), rt))
  }

  function PairLoadSwapped(m: Memory, a: Word, rt: Word): Word {
    LwlHelper(m, Wrap(a + 3), LwrHelper(m, a, rt))
  }

  function PairStore(m: Memory, a: Word, v: Word): Memory {
    SwrHelper(SwlHelper(m, Wrap(a + 3), v), a, v)
  }

  /** What the left half of a load at a + 3 leaves, in terms of the bytes from a on. */
  lemma LeftPart(m: Memory, a: Word, rt: Word)
    ensures var b0, b1, b2, b3 := ByteAt(m, a), ByteAt(m, Wrap(a + 1)), ByteAt(m, Wrap(a + 2)), ByteAt(m, Wrap(a + 3));
            LwlHelper(m, Wrap(a + 3), rt)
            == match a % 4
               case 0 => Join(b0, b1, b2, b3)
               case 1 => Join(Byte0(rt), Byte1(rt), Byte2(rt), b3)
               case 2 => Join(Byte0(rt), Byte1(rt), b2, b3)
               case _ => Join(Byte0(rt), b1, b2, b3)
  {
    hide Join, Byte0, Byte1, Byte2, Byte3, ByteAt, LwlHelper, LwrHelper;
    LoadHelpersAgree(m, Wrap(a + 3), rt);
  }

  lemma RightPart(m: Memory, a: Word, rt: Word)
    ensures var b0, b1, b2, b3 := ByteAt(m, a), ByteAt(m, Wrap(a + 1)), ByteAt(m, Wrap(a + 2)), ByteAt(m, Wrap(a + 3));
            LwrHelper(m, a, rt)
            == match a % 4
               case 0 => Join(b0, b1, b2, b3)
               case 1 => Join(b0, b1, b2, Byte3(rt))
               case 2 => Join(b0, b1, Byte2(rt), Byte3(rt))
               case _ => Join(b0, Byte1(rt), Byte2(rt), Byte3(rt))
  {
    hide Join, Byte0, Byte1, Byte2, Byte3, ByteAt, LwlHelper, LwrHelper;
    LoadHelpersAgree(m, a, rt);
  }

  /** The pair, in either order, loads the little-endian word at `a`, whatever the register
      held before. */
  lemma PairLoadsWord(m: Memory, a: Word, rt: Word)
    ensures PairLoad(m, a, rt) == LoadWord(m, a) == PairLoadSwapped(m, a, rt)
  {
    hide Join, Byte0, Byte1, Byte2, Byte3, ByteAt, LwlHelper, LwrHelper;
    var b0, b1, b2, b3 := ByteAt(m, a), ByteAt(m, Wrap(a + 1)), ByteAt(m, Wrap(a + 2)), ByteAt(m, Wrap(a + 3));
    LeftPart(m, a, rt);
    RightPart(m, a, rt);
    RightPart(m, a, LwlHelper(m, Wrap(a + 3), rt));
    LeftPart(m, a, LwrHelper(m, a, rt));
    match a % 4 {
      case 0 =>
      case 1 =>
        BytesOfJoin(Byte0(rt), Byte1(rt), Byte2(rt), b3);
        BytesOfJoin(b0, b1, b2, Byte3(rt));
      case 2 =>
        BytesOfJoin(Byte0(rt), Byte1(rt), b2, b3);
        BytesOfJoin(b0, b1, Byte2(rt), Byte3(rt));
      case _ =>
        BytesOfJoin(Byte0(rt), b1, b2, b3);
        BytesOfJoin(b0, Byte1(rt), Byte2(rt), Byte3(rt));
    }
  }

  /** The byte the pair stores at `x`, if it stores one there. */
  function StoredByte(a: Word, v: Word, x: Word): Option<Byte> {
    if x == a then Some(Byte0(v))
    else if x == Wrap(a + 1) then Some(Byte1(v))
    else if x == Wrap(a + 2) then Some(Byte2(v))
    else if x == Wrap(a + 3) then Some(Byte3(v))
    else None
  }

  lemma SpliceBytes(m: Memory, p: Word, b0: Byte, b1: Byte, b2: Byte, b3: Byte, x: Word)
    requires Aligned(p)
    ensures ByteAt(Splice(m, p, b0, b1, b2, b3), x)
            == if x == p then b0 else if x == p + 1 then b1 else if x == p + 2 then b2 else if x == p + 3 then b3
              else ByteAt(m, x)
  {
  }

  /** `x` is a byte of the aligned word around `a`. */
  predicate InWordOf(a: Word, x: Word) {
    a - a % 4 <= x < a - a % 4 + 4
  }

  /** Inside the last byte's word, the stored bytes counted back from it. */
  lemma StoredBack(a: Word, v: Word, x: Word)
    requires InWordOf(Wrap(a + 3), x)
    ensures var b := Wrap(a + 3);
            StoredByte(a, v, x)
            == if x == b then Some(Byte3(v)) else if x == b - 1 then Some(Byte2(v))
              else if x == b - 2 then Some(Byte1(v))
               else if x == b - 3 then Some(Byte0(v)) else None
  {
    hide Byte0, Byte1, Byte2, Byte3;
  }

  /** The left half writes the bytes in its own word, the right half those in its word. */
  lemma LeftStores(m: Memory, a: Word, v: Word, x: Word)
    ensures ByteAt(SwlHelper(m, Wrap(a + 3), v), x)
            == if InWordOf(Wrap(a + 3), x) && StoredByte(a, v, x).Some? then StoredByte(a, v, x).value else ByteAt(m, x)
  {
    hide Byte0, Byte1, Byte2, Byte3, ByteAt, SwlHelper, SwrHelper, Splice, StoredByte;
    var b := Wrap(a + 3);
    var p := b - b % 4;
    StoreHelpersAgree(m, b, v);
    if InWordOf(b, x) {
      StoredBack(a, v, x);
    }
    match b % 4 {
      case 0 => SpliceBytes(m, p, Byte3(v), ByteAt(m, b + 1), ByteAt(m, b + 2), ByteAt(m, b + 3), x);
      case 1 => SpliceBytes(m, p, Byte2(v), Byte3(v), ByteAt(m, b + 1), ByteAt(m, b + 2), x);
      case 2 => SpliceBytes(m, p, Byte1(v), Byte2(v), Byte3(v), ByteAt(m, b + 1), x);
      case _ => SpliceBytes(m, p, Byte0(v), Byte1(v), Byte2(v), Byte3(v), x);
    }
  }

  lemma RightStores(m: Memory, a: Word, v: Word, x: Word)
    ensures ByteAt(SwrHelper(m, a, v), x)
            == if InWordOf(a, x) && StoredByte(a, v, x).Some? then StoredByte(a, v, x).value else ByteAt(m, x)
  {
    hide Byte0, Byte1, Byte2, Byte3, ByteAt, SwlHelper, SwrHelper, Splice;
    var p := a - a % 4;
    StoreHelpersAgree(m, a, v);
    match a % 4 {
      case 0 => SpliceBytes(m, p, Byte0(v), Byte1(v), Byte2(v), Byte3(v), x);
      case 1 => SpliceBytes(m, p, ByteAt(m, a - 1), Byte0(v), Byte1(v), Byte2(v), x);
      case 2 => SpliceBytes(m, p, ByteAt(m, a - 2), ByteAt(m, a - 1), Byte0(v), Byte1(v), x);
      case _ => SpliceBytes(m, p, ByteAt(m, a - 3), ByteAt(m, a - 2), ByteAt(m, a - 1), Byte0(v), x);
    }
  }

  /** The store pair changes exactly the four bytes from `a` on, to those of `v`. */
  lemma PairStoresBytes(m: Memory, a: Word, v: Word, x: Word)
    ensures ByteAt(PairStore(m, a, v), x)
            == if StoredByte(a, v, x).Some? then StoredByte(a, v, x).value else ByteAt(m, x)
  {
    hide Byte0, Byte1, Byte2, Byte3, ByteAt, SwlHelper, SwrHelper;
    LeftStores(m, a, v, x);
    RightStores(SwlHelper(m, Wrap(a + 3), v), a, v, x);
  }

  lemma StoredBytesAre(a: Word, v: Word)
    ensures StoredByte(a, v, a) == Some(Byte0(v)) && StoredByte(a, v, Wrap(a + 1)) == Some(Byte1(v))
    ensures StoredByte(a, v, Wrap(a + 2)) == Some(Byte2(v)) && StoredByte(a, v, Wrap(a + 3)) == Some(Byte3(v))
  {
    hide Byte0, Byte1, Byte2, Byte3;
  }

  /** Store then load gives the value back. */
  lemma StoreThenLoad(m: Memory, a: Word, v: Word, rt: Word)
    ensures PairLoad(PairStore(m, a, v), a, rt) == v
  {
    hide Byte0, Byte1, Byte2, Byte3, ByteAt, PairStore, PairLoad, Join, StoredByte, Wrap;
    StoredBytesAre(a, v);
    PairLoadsWord(PairStore(m, a, v), a, rt);
    PairStoresBytes(m, a, v, a);
    PairStoresBytes(m, a, v, Wrap(a + 1));
    PairStoresBytes(m, a, v, Wrap(a + 2));
    PairStoresBytes(m, a, v, Wrap(a + 3));
    JoinOfBytes(v);
  }

  /** Load then store leaves every byte as it was. */
  lemma LoadThenStore(m: Memory, a: Word, rt: Word, x: Word)
    ensures ByteAt(PairStore(m, a, PairLoad(m, a, rt)), x) == ByteAt(m, x)
  {
    hide Byte0, Byte1, Byte2, Byte3, ByteAt, PairStore, PairLoad, Join;
    PairLoadsWord(m, a, rt);
    BytesOfJoin(ByteAt(m, a), ByteAt(m, Wrap(a + 1)), ByteAt(m, Wrap(a + 2)), ByteAt(m, Wrap(a + 3)));
    PairStoresBytes(m, a, PairLoad(m, a, rt), x);
  }
}
