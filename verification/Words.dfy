/** 32-bit words as integers below 2^32: instruction words and their fields, addresses,
    register values with the operators the machine has, and byte memory.

    Shifts and the bitwise connectives go bit by bit; a mask of consecutive bits and a
    shift by a constant number of bytes are written with remainder and quotient. */
module Words {

  const WORD_LIMIT := 0x1_0000_0000
  const SIGN_BIT := 0x8000_0000

  type Word = w: int | 0 <= w < WORD_LIMIT
  type Byte = b: int | 0 <= b < 256
  type Half = h: int | 0 <= h < 0x1_0000

  /** A register number and a shift amount: five bits each. */
  type Reg = r: int | 0 <= r < 32
  type Amount = k: int | 0 <= k < 32

  datatype Option<+T> = None | Some(value: T)

  /** The fields of an instruction word, by position; which of them mean something
      depends on the opcode.  The 16-bit immediate also appears as a signed number. */
  datatype Fields = Fields(op: int, rs: Reg, rt: Reg, rd: Reg, shamt: Amount, funct: int,
                           imm: Half, simm: int, index: int)

  function FieldsOf(w: Word): Fields {
    var imm := w % 0x1_0000;
    Fields(w / 0x400_0000, w / 0x20_0000 % 32, w / 0x1_0000 % 32, w / 0x800 % 32, w / 0x40 % 32, w % 64,
           imm, if imm < 0x8000 then imm else imm - 0x1_0000, w % 0x400_0000)
  }

  /** Sums and differences of 32-bit quantities wrap around. */
  function Wrap(a: int): Word {
    a % WORD_LIMIT
  }

  predicate Aligned(a: int) {
    a % 4 == 0
  }

  // ---- register operators ----

  function ToSigned(v: Word): int {
    if v < SIGN_BIT then v else v - WORD_LIMIT
  }

  predicate Negative(v: Word) {
    v >= SIGN_BIT
  }

  predicate LessSigned(a: Word, b: Word) {
    ToSigned(a) < ToSigned(b)
  }

  function Bit(b: bool): Word {
    if b then 1 else 0
  }

  function Add32(a: Word, b: Word): Word {
    Wrap(a + b)
  }

  function Sub32(a: Word, b: Word): Word {
    Wrap(a - b)
  }

  function Not32(a: Word): Word {
    WORD_LIMIT - 1 - a
  }

  /** Bitwise connectives, from the lowest bit up. */
  function And32(a: nat, b: nat): (r: nat)
    ensures r <= a && r <= b
  {
    if a == 0 || b == 0 then 0 else 2 * And32(a / 2, b / 2) + (a % 2) * (b % 2)
  }

  /** The exclusive or is the sum without carries: a + b - 2 (a and b). */
  function Xor32(a: Word, b: Word): Word {
    Wrap(a + b - 2 * And32(a, b))
  }

  function Or32(a: Word, b: Word): Word {
    Wrap(a + b - And32(a, b))
  }

  function Shl32(v: Word, k: Amount): Word {
    if k == 0 then v else Wrap(2 * Shl32(v, k - 1))
  }

  function Shr32(v: Word, k: Amount): Word {
    if k == 0 then v else Shr32(v / 2, k - 1)
  }

  /** Arithmetic right shift: the vacated bits repeat the sign. */
  function Sar32(v: Word, k: Amount): Word
    decreases k
  {
    if k == 0 then v else Sar32(v / 2 + (if Negative(v) then SIGN_BIT else 0), k - 1)
  }

  /** The shift amount held in a register: its low five bits. */
  function LowFive(v: Word): Amount {
    v % 32
  }

  function SignExtended(imm: Half): Word {
    Wrap(if imm < 0x8000 then imm else imm - 0x1_0000)
  }

  function ZeroExtended(imm: Half): Word {
    imm
  }

  /** Division that rounds toward zero, as C and the R3000A do. */
  function TruncQuotient(a: int, b: int): int
    requires b != 0
  {
    var q := Magnitude(a) / Magnitude(b);
    if (a < 0) != (b < 0) then -q else q
  }

  function TruncRemainder(a: int, b: int): int
    requires b != 0
  {
    a - b * TruncQuotient(a, b)
  }

  function Magnitude(a: int): (m: nat)
    ensures a != 0 ==> m > 0
  {
    if a < 0 then -a else a
  }

  // ---- bytes and little-endian memory ----

  /** Every 32-bit address holds a byte; the ones not listed hold 0. */
  type Memory = map<Word, Byte>

  function ByteAt(m: Memory, a: Word): Byte {
    if a in m then m[a] else 0
  }

  function Byte0(v: Word): Byte { v % 0x100 }
  function Byte1(v: Word): Byte { v / 0x100 % 0x100 }
  function Byte2(v: Word): Byte { v / 0x1_0000 % 0x100 }
  function Byte3(v: Word): Byte { v / 0x100_0000 }

  function JoinHalf(b0: Byte, b1: Byte): Word {
    b0 + 0x100 * b1
  }

  function Join(b0: Byte, b1: Byte, b2: Byte, b3: Byte): Word {
    b0 + 0x100 * b1 + 0x1_0000 * b2 + 0x100_0000 * b3
  }

  function LoadHalf(m: Memory, a: Word): Word {
    JoinHalf(ByteAt(m, a), ByteAt(m, Wrap(a + 1)))
  }

  function LoadWord(m: Memory, a: Word): Word {
    Join(ByteAt(m, a), ByteAt(m, Wrap(a + 1)), ByteAt(m, Wrap(a + 2)), ByteAt(m, Wrap(a + 3)))
  }

  function StoreByte(m: Memory, a: Word, v: Word): Memory {
    m[a := Byte0(v)]
  }

  function StoreHalf(m: Memory, a: Word, v: Word): Memory {
    m[a := Byte0(v)][Wrap(a + 1) := Byte1(v)]
  }

  function StoreWord(m: Memory, a: Word, v: Word): Memory {
    m[a := Byte0(v)][Wrap(a + 1) := Byte1(v)][Wrap(a + 2) := Byte2(v)][Wrap(a + 3) := Byte3(v)]
  }

  function SignExtend8(b: Byte): Word {
    if b < 0x80 then b else b + 0xFFFF_FF00
  }

  function SignExtend16(h: Word): Word {
    if h < 0x8000 then h else Wrap(h + 0xFFFF_0000)
  }

  lemma Quotients(q: int, r: int)
    requires 0 <= r
    ensures r < 0x100 ==> (0x100 * q + r) / 0x100 == q && (0x100 * q + r) % 0x100 == r
    ensures r < 0x1_0000 ==> (0x1_0000 * q + r) / 0x1_0000 == q && (0x1_0000 * q + r) % 0x1_0000 == r
    ensures r < 0x100_0000 ==> (0x100_0000 * q + r) / 0x100_0000 == q && (0x100_0000 * q + r) % 0x100_0000 == r
  {
  }

  lemma BytesOfJoin(b0: Byte, b1: Byte, b2: Byte, b3: Byte)
    ensures var v := Join(b0, b1, b2, b3);
            Byte0(v) == b0 && Byte1(v) == b1 && Byte2(v) == b2 && Byte3(v) == b3
  {
    var v := Join(b0, b1, b2, b3);
    Quotients(b1 + 0x100 * b2 + 0x1_0000 * b3, b0);
    Quotients(b2 + 0x100 * b3, b1);
    Quotients(b2 + 0x100 * b3, b0 + 0x100 * b1);
    Quotients(b3, b2);
    Quotients(b3, b0 + 0x100 * b1 + 0x1_0000 * b2);
    assert v == 0x100 * (b1 + 0x100 * b2 + 0x1_0000 * b3) + b0;
    assert b1 + 0x100 * b2 + 0x1_0000 * b3 == 0x100 * (b2 + 0x100 * b3) + b1;
    assert v == 0x1_0000 * (b2 + 0x100 * b3) + (b0 + 0x100 * b1);
    assert v == 0x100_0000 * b3 + (b0 + 0x100 * b1 + 0x1_0000 * b2);
  }

  lemma JoinOfBytes(v: Word)
    ensures Join(Byte0(v), Byte1(v), Byte2(v), Byte3(v)) == v
  {
    var q1, q2, q3 := v / 0x100, v / 0x100 / 0x100, v / 0x100 / 0x100 / 0x100;
    Quotients(q2, v % 0x100 + 0x100 * (q1 % 0x100));
    Quotients(q3, v % 0x100 + 0x100 * (q1 % 0x100) + 0x1_0000 * (q2 % 0x100));
    assert v == 0x100 * q1 + v % 0x100 && q1 == 0x100 * q2 + q1 % 0x100 && q2 == 0x100 * q3 + q2 % 0x100;
    assert v / 0x1_0000 == q2 && v / 0x100_0000 == q3;
  }
}
