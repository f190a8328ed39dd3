/** The C statement emitted for one instruction that does not transfer control
    (translate_instruction and the translate_* functions), as a small AST with the
    meaning C gives it, and its agreement with the reference. */
module Translate {
  import opened Words
  import opened Isa
  import opened Masks

  datatype Operand = Gpr(r: Reg) | Lit(v: Word)
  datatype CShift = By(k: Amount) | ByLowFive(r: Reg)
  datatype CWidth = SignedByte | UnsignedByte | SignedHalf | UnsignedHalf | FullWord
  datatype CBinary = Plus | Minus | BitAnd | BitOr | BitXor

  /** `gpr[base]`, or `gpr[base] + offset` when there is an offset. */
  datatype CAddr = Direct(base: Reg) | Displaced(base: Reg, disp: Word)

  datatype CExpr =
    | Plain(o: Operand)
    | Bin(op: CBinary, left: Operand, right: Operand)
    | Not(o: Operand)
    | NotOr(left: Operand, right: Operand)
    | Shifted(sop: ShiftOp, o: Operand, amt: CShift)
    | LtSigned(left: Operand, right: Operand)
    | LtUnsigned(left: Operand, right: Operand)
    | ReadMem(width: CWidth, addr: CAddr)
    | CallLwl(addr: CAddr, rt: Reg)
    | CallLwr(addr: CAddr, rt: Reg)
    | HiReg
    | LoReg

  datatype CStmt =
    | Nop
    | Discard(e: CExpr)
    | SetGpr(r: Reg, e: CExpr)
    | SetHi(o: Operand)
    | SetLo(o: Operand)
    | MultStmt(signed: bool, rs: Reg, rt: Reg)
    | DivStmt(signed: bool, rs: Reg, rt: Reg)
    | WriteMem(width: CWidth, addr: CAddr, rt: Reg)
    | CallSwl(addr: CAddr, rt: Reg)
    | CallSwr(addr: CAddr, rt: Reg)
    | Untranslated(f: Fields)

  // ---- the emitted unaligned-access helpers ----

  /** The switch tables of the helpers: `n` is the address modulo 4, `word` the aligned
      word, `rt` the register. */
  function LwlMerge(n: int, word: Word, rt: Word): Word {
    if n == 0 then Or32(And32(rt, 0x00FF_FFFF), Shl32(word, 24))
    else if n == 1 then Or32(And32(rt, 0x0000_FFFF), Shl32(word, 16))
    else if n == 2 then Or32(And32(rt, 0x0000_00FF), Shl32(word, 8))
    else word
  }

  function LwrMerge(n: int, word: Word, rt: Word): Word {
    if n == 0 then word
    else if n == 1 then Or32(And32(rt, 0xFF00_0000), Shr32(word, 8))
    else if n == 2 then Or32(And32(rt, 0xFFFF_0000), Shr32(word, 16))
    else Or32(And32(rt, 0xFFFF_FF00), Shr32(word, 24))
  }

  function SwlMerge(n: int, word: Word, rt: Word): Word {
    if n == 0 then Or32(And32(word, 0xFFFF_FF00), Shr32(rt, 24))
    else if n == 1 then Or32(And32(word, 0xFFFF_0000), Shr32(rt, 16))
    else if n == 2 then Or32(And32(word, 0xFF00_0000), Shr32(rt, 8))
    else rt
  }

  function SwrMerge(n: int, word: Word, rt: Word): Word {
    if n == 0 then rt
    else if n == 1 then Or32(And32(word, 0x0000_00FF), Shl32(rt, 8))
    else if n == 2 then Or32(And32(word, 0x0000_FFFF), Shl32(rt, 16))
    else Or32(And32(word, 0x00FF_FFFF), Shl32(rt, 24))
  }

  /** `addr & ~3u`. */
  function WordOf(a: Word): Word {
    And32(a, 0xFFFF_FFFC)
  }

  function LwlHelper(m: Memory, a: Word, rt: Word): Word {
    LwlMerge(And32(a, 3), LoadWord(m, WordOf(a)), rt)
  }

  function LwrHelper(m: Memory, a: Word, rt: Word): Word {
    LwrMerge(And32(a, 3), LoadWord(m, WordOf(a)), rt)
  }

  function SwlHelper(m: Memory, a: Word, rt: Word): Memory {
    StoreWord(m, WordOf(a), SwlMerge(And32(a, 3), LoadWord(m, WordOf(a)), rt))
  }

  function SwrHelper(m: Memory, a: Word, rt: Word): Memory {
    StoreWord(m, WordOf(a), SwrMerge(And32(a, 3), LoadWord(m, WordOf(a)), rt))
  }

  // ---- meaning of the AST ----

  function Value(o: Operand, cpu: Cpu): Word {
    match o
    case Gpr(r) => cpu.gpr[r]
    case Lit(v) => v
  }

  function EvalBin(op: CBinary, a: Word, b: Word): Word {
    match op
    case Plus => Add32(a, b)
    case Minus => Sub32(a, b)
    case BitAnd => And32(a, b)
    case BitOr => Or32(a, b)
    case BitXor => Xor32(a, b)
  }

  function EvalShift(amt: CShift, cpu: Cpu): Amount {
    match amt
    case By(k) => k
    case ByLowFive(r) => LowFive(cpu.gpr[r])
  }

  function EvalAddr(a: CAddr, cpu: Cpu): Word {
    match a
    case Direct(base) => cpu.gpr[base]
    case Displaced(base, disp) => Add32(cpu.gpr[base], disp)
  }

  function EvalLoad(width: CWidth, m: Memory, a: Word): Word {
    match width
    case SignedByte => SignExtend8(ByteAt(m, a))
    case UnsignedByte => ByteAt(m, a)
    case SignedHalf => SignExtend16(LoadHalf(m, a))
    case UnsignedHalf => LoadHalf(m, a)
    case FullWord => LoadWord(m, a)
  }

  function Eval(e: CExpr, cpu: Cpu): Word {
    match e
    case Plain(o) => Value(o, cpu)
    case Bin(op, l, r) => EvalBin(op, Value(l, cpu), Value(r, cpu))
    case Not(o) => Not32(Value(o, cpu))
    case NotOr(l, r) => Not32(Or32(Value(l, cpu), Value(r, cpu)))
    case Shifted(op, o, amt) => ShiftValue(op, Value(o, cpu), EvalShift(amt, cpu))
    case LtSigned(l, r) => Bit(LessSigned(Value(l, cpu), Value(r, cpu)))
    case LtUnsigned(l, r) => Bit(Value(l, cpu) < Value(r, cpu))
    case ReadMem(width, a) => EvalLoad(width, cpu.mem, EvalAddr(a, cpu))
    case CallLwl(a, rt) => LwlHelper(cpu.mem, EvalAddr(a, cpu), cpu.gpr[rt])
    case CallLwr(a, rt) => LwrHelper(cpu.mem, EvalAddr(a, cpu), cpu.gpr[rt])
    case HiReg => cpu.hi
    case LoReg => cpu.lo
  }

  function EvalStore(width: CWidth, m: Memory, a: Word, v: Word): Memory {
    match width
    case FullWord => StoreWord(m, a, v)
    case SignedHalf => StoreHalf(m, a, v)
    case UnsignedHalf => StoreHalf(m, a, v)
    case _ => StoreByte(m, a, v)
  }

  function EvalMult(signed: bool, a: Word, b: Word): int {
    if signed then ToSigned(a) * ToSigned(b) else a * b
  }

  /** The one quotient of two 32-bit integers that is none: C leaves the division undefined. */
  predicate QuotientOverflows(a: Word, b: Word) {
    ToSigned(a) == -SIGN_BIT && ToSigned(b) == -1
  }

  function EvalDiv(signed: bool, a: Word, b: Word): Option<(Word, Word)> {
    if b != 0 then
      if signed then
        assert ToSigned(b) != 0;
        if QuotientOverflows(a, b) then None
        else Some((Wrap(TruncQuotient(ToSigned(a), ToSigned(b))), Wrap(TruncRemainder(ToSigned(a), ToSigned(b)))))
      else
        assert b != 0;
        Some((Wrap(a / b), Wrap(a % b)))
    else
      Some((if signed then (if !LessSigned(a, 0) then 0xFFFF_FFFF else 1) else 0xFFFF_FFFF, a))
  }

  /** What a statement that always has a result does.  The emitted C writes `cpu->gpr[r]`
      whatever `r` is, register 0 included. */
  function Effect(s: CStmt, cpu: Cpu): Cpu
    requires !s.DivStmt?
  {
    match s
    case Nop => cpu
    case Discard(e) => cpu
    case SetGpr(r, e) => cpu.(gpr := cpu.gpr[r := Eval(e, cpu)])
    case SetHi(o) => cpu.(hi := Value(o, cpu))
    case SetLo(o) => cpu.(lo := Value(o, cpu))
    case MultStmt(signed, rs, rt) =>
      var p := EvalMult(signed, cpu.gpr[rs], cpu.gpr[rt]);
      cpu.(lo := Wrap(p), hi := Wrap(p / WORD_LIMIT))
    case WriteMem(width, a, rt) => cpu.(mem := EvalStore(width, cpu.mem, EvalAddr(a, cpu), cpu.gpr[rt]))
    case CallSwl(a, rt) => cpu.(mem := SwlHelper(cpu.mem, EvalAddr(a, cpu), cpu.gpr[rt]))
    case CallSwr(a, rt) => cpu.(mem := SwrHelper(cpu.mem, EvalAddr(a, cpu), cpu.gpr[rt]))
    case Untranslated(_) => cpu
  }

  /** The state a statement leaves; none where C defines none. */
  function Run(s: CStmt, cpu: Cpu): Option<Cpu> {
    if s.DivStmt? then
      var qr := EvalDiv(s.signed, cpu.gpr[s.rs], cpu.gpr[s.rt]);
      if qr == None then None else Some(cpu.(lo := qr.value.0, hi := qr.value.1))
    else Some(Effect(s, cpu))
  }

  // ---- what is emitted ----

  function AddressOf(f: Fields): CAddr {
    if f.imm == 0 then Direct(f.rs) else Displaced(f.rs, SignExtended(f.imm))
  }

  function SignedLit(f: Fields): Operand {
    Lit(SignExtended(f.imm))
  }

  function UnsignedLit(f: Fields): Operand {
    Lit(ZeroExtended(f.imm))
  }

  function TranslateAddiu(f: Fields): CStmt {
    if f.rs == 0 then SetGpr(f.rt, Plain(SignedLit(f)))
    else if f.rt == 0 then Nop
    else SetGpr(f.rt, Bin(Plus, Gpr(f.rs), SignedLit(f)))
  }

  /** or, addu: a zero operand turns the instruction into a move. */
  function TranslateMoveable(f: Fields, op: CBinary): CStmt {
    if f.rd == 0 then Nop
    else if f.rt == 0 then SetGpr(f.rd, Plain(Gpr(f.rs)))
    else if f.rs == 0 then SetGpr(f.rd, Plain(Gpr(f.rt)))
    else SetGpr(f.rd, Bin(op, Gpr(f.rs), Gpr(f.rt)))
  }

  function TranslateNor(f: Fields): CStmt {
    if f.rd == 0 then Nop
    else if f.rt == 0 then SetGpr(f.rd, Not(Gpr(f.rs)))
    else if f.rs == 0 then SetGpr(f.rd, Not(Gpr(f.rt)))
    else SetGpr(f.rd, NotOr(Gpr(f.rs), Gpr(f.rt)))
  }

  function TranslateSll(f: Fields): CStmt {
    if f.rd == 0 && f.rt == 0 && f.shamt == 0 then Nop
    else if f.rd == 0 then Nop
    else if f.shamt == 0 then SetGpr(f.rd, Plain(Gpr(f.rt)))
    else SetGpr(f.rd, Shifted(Sll, Gpr(f.rt), By(f.shamt)))
  }

  /** The remaining instructions that write `rd`, and those that write `rt`. */
  function SetRd(f: Fields, e: CExpr): CStmt {
    if f.rd == 0 then Nop else SetGpr(f.rd, e)
  }

  function SetRt(f: Fields, e: CExpr): CStmt {
    if f.rt == 0 then Nop else SetGpr(f.rt, e)
  }

  function TranslateOri(f: Fields): CStmt {
    if f.rt == 0 then Nop
    else if f.rs == 0 then SetGpr(f.rt, Plain(UnsignedLit(f)))
    else SetGpr(f.rt, Bin(BitOr, Gpr(f.rs), UnsignedLit(f)))
  }

  function TranslateLoad(f: Fields, width: CWidth): CStmt {
    var e := ReadMem(width, AddressOf(f));
    if f.rt == 0 then Discard(e) else SetGpr(f.rt, e)
  }

  function TranslateSpecial(f: Fields): CStmt {
    match f.funct
    case 0x00 => TranslateSll(f)
    case 0x02 => SetRd(f, Shifted(Srl, Gpr(f.rt), By(f.shamt)))
    case 0x03 => SetRd(f, Shifted(Sra, Gpr(f.rt), By(f.shamt)))
    case 0x04 => SetRd(f, Shifted(Sll, Gpr(f.rt), ByLowFive(f.rs)))
    case 0x06 => SetRd(f, Shifted(Srl, Gpr(f.rt), ByLowFive(f.rs)))
    case 0x07 => SetRd(f, Shifted(Sra, Gpr(f.rt), ByLowFive(f.rs)))
    case 0x10 => SetRd(f, HiReg)
    case 0x11 => SetHi(Gpr(f.rs))
    case 0x12 => SetRd(f, LoReg)
    case 0x13 => SetLo(Gpr(f.rs))
    case 0x18 => MultStmt(true, f.rs, f.rt)
    case 0x19 => MultStmt(false, f.rs, f.rt)
    case 0x1A => DivStmt(true, f.rs, f.rt)
    case 0x1B => DivStmt(false, f.rs, f.rt)
    case 0x20 => TranslateMoveable(f, Plus)
    case 0x21 => TranslateMoveable(f, Plus)
    case 0x22 => SetRd(f, Bin(Minus, Gpr(f.rs), Gpr(f.rt)))
    case 0x23 => SetRd(f, Bin(Minus, Gpr(f.rs), Gpr(f.rt)))
    case 0x24 => SetRd(f, Bin(BitAnd, Gpr(f.rs), Gpr(f.rt)))
    case 0x25 => TranslateMoveable(f, BitOr)
    case 0x26 => SetRd(f, Bin(BitXor, Gpr(f.rs), Gpr(f.rt)))
    case 0x27 => TranslateNor(f)
    case 0x2A => SetRd(f, LtSigned(Gpr(f.rs), Gpr(f.rt)))
    case 0x2B => SetRd(f, LtUnsigned(Gpr(f.rs), Gpr(f.rt)))
    case _ => Untranslated(f)
  }

  function TranslateInstruction(f: Fields): CStmt {
    match f.op
    case 0x00 => TranslateSpecial(f)
    case 0x08 => TranslateAddiu(f)
    case 0x09 => TranslateAddiu(f)
    case 0x0A => SetRt(f, LtSigned(Gpr(f.rs), SignedLit(f)))
    case 0x0B => SetRt(f, LtUnsigned(Gpr(f.rs), SignedLit(f)))
    case 0x0C => SetRt(f, Bin(BitAnd, Gpr(f.rs), UnsignedLit(f)))
    case 0x0D => TranslateOri(f)
    case 0x0E => SetRt(f, Bin(BitXor, Gpr(f.rs), UnsignedLit(f)))
    case 0x0F => SetRt(f, Shifted(Sll, UnsignedLit(f), By(16)))
    case 0x20 => TranslateLoad(f, SignedByte)
    case 0x21 => TranslateLoad(f, SignedHalf)
    case 0x22 => SetRt(f, CallLwl(AddressOf(f), f.rt))
    case 0x23 => TranslateLoad(f, FullWord)
    case 0x24 => TranslateLoad(f, UnsignedByte)
    case 0x25 => TranslateLoad(f, UnsignedHalf)
    case 0x26 => SetRt(f, CallLwr(AddressOf(f), f.rt))
    case 0x28 => WriteMem(UnsignedByte, AddressOf(f), f.rt)
    case 0x29 => WriteMem(UnsignedHalf, AddressOf(f), f.rt)
    case 0x2A => CallSwl(AddressOf(f), f.rt)
    case 0x2B => WriteMem(FullWord, AddressOf(f), f.rt)
    case 0x2E => CallSwr(AddressOf(f), f.rt)
    case _ => Untranslated(f)
  }

  /** The branch condition, evaluated on the register file at that moment. */
  function CondOf(f: Fields, cpu: Cpu): bool {
    var rs := cpu.gpr[f.rs];
    var rt := cpu.gpr[f.rt];
    if f.op == 1 && f.rt == 0x00 then LessSigned(rs, 0)
    else if f.op == 1 && f.rt == 0x01 then !LessSigned(rs, 0)
    else if f.op == 1 && f.rt == 0x10 then LessSigned(rs, 0)
    else if f.op == 1 && f.rt == 0x11 then !LessSigned(rs, 0)
    else
      match f.op
      case 0x04 => rs == rt
      case 0x14 => rs == rt
      case 0x05 => rs != rt
      case 0x15 => rs != rt
      case 0x06 => !LessSigned(0, rs)
      case 0x16 => !LessSigned(0, rs)
      case 0x07 => LessSigned(0, rs)
      case 0x17 => LessSigned(0, rs)
      case _ => false
  }

  // ---- agreement with the reference ----

  /** A word cut after its first, second and third byte. */
  lemma Cuts(b0: Byte, b1: Byte, b2: Byte, b3: Byte)
    ensures var w := Join(b0, b1, b2, b3);
            && w % 0x100 == b0 && w / 0x100 == b1 + 0x100 * b2 + 0x1_0000 * b3
            && w % 0x1_0000 == b0 + 0x100 * b1 && w / 0x1_0000 == b2 + 0x100 * b3
            && w % 0x100_0000 == b0 + 0x100 * b1 + 0x1_0000 * b2 && w / 0x100_0000 == b3
  {
    var w := Join(b0, b1, b2, b3);
    Quotients(b1 + 0x100 * b2 + 0x1_0000 * b3, b0);
    Quotients(b2 + 0x100 * b3, b0 + 0x100 * b1);
    Quotients(b3, b0 + 0x100 * b1 + 0x1_0000 * b2);
  }

  // Below bit 8, 16 or 24 the bits of one word, above it those of another.

  lemma Spliced24(low: Word, q: int)
    requires low < 0x100_0000 && 0 <= q < 0x100
    ensures Or32(low, 0x100_0000 * q) == low + 0x100_0000 * q == Or32(0x100_0000 * q, low)
  {
    hide Pow2, Low, High, Or32;
    Powers();
    Quotients(q, 0);
    PartsOf(0x100_0000 * q);
    OrIsSum(low, 0x100_0000 * q, 24);
  }

  lemma MergeAt24(low: Word, high: Word)
    ensures Or32(And32(low, 0x00FF_FFFF), Shl32(high, 24)) == low % 0x100_0000 + high % 0x100 * 0x100_0000
    ensures Or32(And32(high, 0xFF00_0000), Shr32(low, 8)) == high / 0x100_0000 * 0x100_0000 + low / 0x100
  {
    hide And32, Or32, Shl32, Shr32;
    ByteMasks(low);
    ByteMasks(high);
    ByteShifts(low);
    ByteShifts(high);
    Spliced24(low % 0x100_0000, high % 0x100);
    Spliced24(low / 0x100, high / 0x100_0000);
  }

  lemma Spliced16(low: Word, q: int)
    requires low < 0x1_0000 && 0 <= q < 0x1_0000
    ensures Or32(low, 0x1_0000 * q) == low + 0x1_0000 * q == Or32(0x1_0000 * q, low)
  {
    hide Pow2, Low, High, Or32;
    Powers();
    Quotients(q, 0);
    PartsOf(0x1_0000 * q);
    OrIsSum(low, 0x1_0000 * q, 16);
  }

  lemma MergeAt16(low: Word, high: Word)
    ensures Or32(And32(low, 0x0000_FFFF), Shl32(high, 16)) == low % 0x1_0000 + high % 0x1_0000 * 0x1_0000
    ensures Or32(And32(high, 0xFFFF_0000), Shr32(low, 16)) == high / 0x1_0000 * 0x1_0000 + low / 0x1_0000
  {
    hide And32, Or32, Shl32, Shr32;
    ByteMasks(low);
    ByteMasks(high);
    ByteShifts(low);
    ByteShifts(high);
    Spliced16(low % 0x1_0000, high % 0x1_0000);
    Spliced16(low / 0x1_0000, high / 0x1_0000);
  }

  lemma Spliced8(low: Word, q: int)
    requires low < 0x100 && 0 <= q < 0x100_0000
    ensures Or32(low, 0x100 * q) == low + 0x100 * q == Or32(0x100 * q, low)
  {
    hide Pow2, Low, High, Or32;
    Powers();
    Quotients(q, 0);
    PartsOf(0x100 * q);
    OrIsSum(low, 0x100 * q, 8);
  }

  lemma MergeAt8(low: Word, high: Word)
    ensures Or32(And32(low, 0x0000_00FF), Shl32(high, 8)) == low % 0x100 + high % 0x100_0000 * 0x100
    ensures Or32(And32(high, 0xFFFF_FF00), Shr32(low, 24)) == high / 0x100 * 0x100 + low / 0x100_0000
  {
    hide And32, Or32, Shl32, Shr32;
    ByteMasks(low);
    ByteMasks(high);
    ByteShifts(low);
    ByteShifts(high);
    Spliced8(low % 0x100, high % 0x100_0000);
    Spliced8(low / 0x100_0000, high / 0x100);
  }

  lemma MergeForms(low: Word, high: Word)
    ensures Or32(And32(low, 0x00FF_FFFF), Shl32(high, 24)) == low % 0x100_0000 + high % 0x100 * 0x100_0000
    ensures Or32(And32(low, 0x0000_FFFF), Shl32(high, 16)) == low % 0x1_0000 + high % 0x1_0000 * 0x1_0000
    ensures Or32(And32(low, 0x0000_00FF), Shl32(high, 8)) == low % 0x100 + high % 0x100_0000 * 0x100
    ensures Or32(And32(high, 0xFF00_0000), Shr32(low, 8)) == high / 0x100_0000 * 0x100_0000 + low / 0x100
    ensures Or32(And32(high, 0xFFFF_0000), Shr32(low, 16)) == high / 0x1_0000 * 0x1_0000 + low / 0x1_0000
    ensures Or32(And32(high, 0xFFFF_FF00), Shr32(low, 24)) == high / 0x100 * 0x100 + low / 0x100_0000
  {
    hide And32, Or32, Shl32, Shr32;
    MergeAt24(low, high);
    MergeAt16(low, high);
    MergeAt8(low, high);
  }

  lemma LoadMerges(b0: Byte, b1: Byte, b2: Byte, b3: Byte, r0: Byte, r1: Byte, r2: Byte, r3: Byte)
    ensures var w := Join(b0, b1, b2, b3);
            var rt := Join(r0, r1, r2, r3);
            && LwlMerge(0, w, rt) == Join(r0, r1, r2, b0)
            && LwlMerge(1, w, rt) == Join(r0, r1, b0, b1)
            && LwlMerge(2, w, rt) == Join(r0, b0, b1, b2)
            && LwlMerge(3, w, rt) == w
            && LwrMerge(0, w, rt) == w
            && LwrMerge(1, w, rt) == Join(b1, b2, b3, r3)
            && LwrMerge(2, w, rt) == Join(b2, b3, r2, r3)
            && LwrMerge(3, w, rt) == Join(b3, r1, r2, r3)
  {
    hide And32, Or32, Shl32, Shr32;
    var w, rt := Join(b0, b1, b2, b3), Join(r0, r1, r2, r3);
    Cuts(b0, b1, b2, b3);
    Cuts(r0, r1, r2, r3);
    MergeForms(rt, w);
    MergeForms(w, rt);
  }

  lemma StoreMerges(b0: Byte, b1: Byte, b2: Byte, b3: Byte, r0: Byte, r1: Byte, r2: Byte, r3: Byte)
    ensures var w := Join(b0, b1, b2, b3);
            var rt := Join(r0, r1, r2, r3);
            && SwlMerge(0, w, rt) == Join(r3, b1, b2, b3)
            && SwlMerge(1, w, rt) == Join(r2, r3, b2, b3)
            && SwlMerge(2, w, rt) == Join(r1, r2, r3, b3)
            && SwlMerge(3, w, rt) == rt
            && SwrMerge(0, w, rt) == rt
            && SwrMerge(1, w, rt) == Join(b0, r0, r1, r2)
            && SwrMerge(2, w, rt) == Join(b0, b1, r0, r1)
            && SwrMerge(3, w, rt) == Join(b0, b1, b2, r0)
  {
    hide And32, Or32, Shl32, Shr32;
    var w, rt := Join(b0, b1, b2, b3), Join(r0, r1, r2, r3);
    Cuts(b0, b1, b2, b3);
    Cuts(r0, r1, r2, r3);
    MergeForms(rt, w);
    MergeForms(w, rt);
  }

  lemma AlignedLoad(m: Memory, p: Word)
    requires Aligned(p)
    ensures LoadWord(m, p) == Join(ByteAt(m, p), ByteAt(m, p + 1), ByteAt(m, p + 2), ByteAt(m, p + 3))
  {
    hide Join, ByteAt;
  }

  lemma LoadHelpersAgree(m: Memory, a: Word, rt: Word)
    ensures LwlHelper(m, a, rt) == LoadLeft(m, a, rt)
    ensures LwrHelper(m, a, rt) == LoadRight(m, a, rt)
  {
    hide Join, Byte0, Byte1, Byte2, Byte3, LwlMerge, LwrMerge, ByteAt, LoadWord, And32;
    AddressMasks(a);
    var n := a % 4;
    AlignedLoad(m, a - n);
    JoinOfBytes(rt);
    if n == 0 {
      LoadMerges(ByteAt(m, a), ByteAt(m, a + 1), ByteAt(m, a + 2), ByteAt(m, a + 3),
                 Byte0(rt), Byte1(rt), Byte2(rt), Byte3(rt));
    } else if n == 1 {
      LoadMerges(ByteAt(m, a - 1), ByteAt(m, a), ByteAt(m, a + 1), ByteAt(m, a + 2),
                 Byte0(rt), Byte1(rt), Byte2(rt), Byte3(rt));
    } else if n == 2 {
      LoadMerges(ByteAt(m, a - 2), ByteAt(m, a - 1), ByteAt(m, a), ByteAt(m, a + 1),
                 Byte0(rt), Byte1(rt), Byte2(rt), Byte3(rt));
    } else {
      LoadMerges(ByteAt(m, a - 3), ByteAt(m, a - 2), ByteAt(m, a - 1), ByteAt(m, a),
                 Byte0(rt), Byte1(rt), Byte2(rt), Byte3(rt));
    }
  }

  /** Storing a word made of four bytes puts those bytes in memory. */
  lemma StoreJoined(m: Memory, p: Word, b0: Byte, b1: Byte, b2: Byte, b3: Byte)
    requires Aligned(p)
    ensures StoreWord(m, p, Join(b0, b1, b2, b3)) == Splice(m, p, b0, b1, b2, b3)
  {
    hide Join, Byte0, Byte1, Byte2, Byte3;
    BytesOfJoin(b0, b1, b2, b3);
  }

  lemma StoreHelpersAgree(m: Memory, a: Word, rt: Word)
    ensures SwlHelper(m, a, rt) == StoreLeft(m, a, rt)
    ensures SwrHelper(m, a, rt) == StoreRight(m, a, rt)
  {
    hide Join, Byte0, Byte1, Byte2, Byte3, StoreWord, Splice, SwlMerge, SwrMerge, ByteAt, LoadWord, And32;
    AddressMasks(a);
    var p := a - a % 4;
    var b0, b1, b2, b3 := ByteAt(m, p), ByteAt(m, p + 1), ByteAt(m, p + 2), ByteAt(m, p + 3);
    var r0, r1, r2, r3 := Byte0(rt), Byte1(rt), Byte2(rt), Byte3(rt);
    JoinOfBytes(rt);
    AlignedLoad(m, p);
    StoreMerges(b0, b1, b2, b3, r0, r1, r2, r3);
    StoreJoined(m, p, r0, r1, r2, r3);
    if a % 4 == 0 {
      StoreJoined(m, p, r3, b1, b2, b3);
    } else if a % 4 == 1 {
      StoreJoined(m, p, r2, r3, b2, b3);
      StoreJoined(m, p, b0, r0, r1, r2);
    } else if a % 4 == 2 {
      StoreJoined(m, p, r1, r2, r3, b3);
      StoreJoined(m, p, b0, b1, r0, r1);
    } else {
      StoreJoined(m, p, b0, b1, b2, r0);
    }
  }

  /** The one family that differs: addi/addiu from $zero into $zero with a nonzero
      immediate writes `cpu->gpr[0]`. */
  predicate ClobbersZero(f: Fields) {
    (f.op == 0x08 || f.op == 0x09) && f.rs == 0 && f.rt == 0 && f.imm != 0
  }

  function AluOf(op: CBinary): AluOp {
    match op
    case Plus => Add
    case Minus => Sub
    case BitAnd => And
    case BitOr => Or
    case BitXor => Xor
  }

  lemma AluAgrees(f: Fields, op: CBinary, cpu: Cpu)
    ensures Run(SetRd(f, Bin(op, Gpr(f.rs), Gpr(f.rt))), cpu) == Some(ExecInstr(Alu(AluOf(op), f.rd, f.rs, f.rt), cpu))
  {
  }

  /** A sum or a disjunction with a zero operand is the other operand. */
  lemma MoveOperand(f: Fields, op: CBinary, cpu: Cpu)
    requires cpu.gpr[0] == 0 && (op.Plus? || op.BitOr?)
    ensures f.rt == 0 ==> EvalBin(op, cpu.gpr[f.rs], cpu.gpr[f.rt]) == cpu.gpr[f.rs]
    ensures f.rs == 0 ==> EvalBin(op, cpu.gpr[f.rs], cpu.gpr[f.rt]) == cpu.gpr[f.rt]
  {
  }

  lemma MoveAgrees(f: Fields, op: CBinary, cpu: Cpu)
    requires cpu.gpr[0] == 0 && (op.Plus? || op.BitOr?)
    ensures Run(TranslateMoveable(f, op), cpu) == Some(ExecInstr(Alu(AluOf(op), f.rd, f.rs, f.rt), cpu))
  {
    AluAgrees(f, op, cpu);
    MoveOperand(f, op, cpu);
  }

  lemma NorAgrees(f: Fields, cpu: Cpu)
    requires cpu.gpr[0] == 0
    ensures Run(TranslateNor(f), cpu) == Some(ExecInstr(Alu(Nor, f.rd, f.rs, f.rt), cpu))
  {
    hide And32, Or32, Not32, Add32, ShiftValue, LoadValue, StoreMem, Multiply, Divide, EvalShift, EvalLoad, EvalStore,
         EvalMult, EvalDiv, EvalAddr, Effective, Wrap;
    MoveOperand(f, BitOr, cpu);
  }

  lemma CompareAgrees(f: Fields, cpu: Cpu)
    ensures Run(SetRd(f, LtSigned(Gpr(f.rs), Gpr(f.rt))), cpu) == Some(ExecInstr(Alu(Slt, f.rd, f.rs, f.rt), cpu))
    ensures Run(SetRd(f, LtUnsigned(Gpr(f.rs), Gpr(f.rt))), cpu) == Some(ExecInstr(Alu(Sltu, f.rd, f.rs, f.rt), cpu))
  {
  }

  lemma CompareImmAgrees(f: Fields, cpu: Cpu)
    ensures Run(SetRt(f, LtSigned(Gpr(f.rs), SignedLit(f))), cpu)
            == Some(ExecInstr(AluImm(Slt, f.rt, f.rs, SignExtended(f.imm)), cpu))
    ensures Run(SetRt(f, LtUnsigned(Gpr(f.rs), SignedLit(f))), cpu)
            == Some(ExecInstr(AluImm(Sltu, f.rt, f.rs, SignExtended(f.imm)), cpu))
  {
  }

  lemma ShiftAgrees(f: Fields, op: ShiftOp, cpu: Cpu)
    ensures Run(SetRd(f, Shifted(op, Gpr(f.rt), By(f.shamt))), cpu)
            == Some(ExecInstr(Shift(op, f.rd, f.rt, f.shamt), cpu))
    ensures Run(SetRd(f, Shifted(op, Gpr(f.rt), ByLowFive(f.rs))), cpu)
            == Some(ExecInstr(ShiftVar(op, f.rd, f.rt, f.rs), cpu))
  {
  }

  lemma SllAgrees(f: Fields, cpu: Cpu)
    ensures Run(TranslateSll(f), cpu) == Some(ExecInstr(Shift(Sll, f.rd, f.rt, f.shamt), cpu))
  {
  }

  lemma HiLoAgrees(f: Fields, cpu: Cpu)
    ensures Run(SetRd(f, HiReg), cpu) == Some(ExecInstr(MoveFromHi(f.rd), cpu))
    ensures Run(SetRd(f, LoReg), cpu) == Some(ExecInstr(MoveFromLo(f.rd), cpu))
    ensures Run(SetHi(Gpr(f.rs)), cpu) == Some(ExecInstr(MoveToHi(f.rs), cpu))
    ensures Run(SetLo(Gpr(f.rs)), cpu) == Some(ExecInstr(MoveToLo(f.rs), cpu))
  {
    hide ShiftValue, LoadValue, StoreMem, Multiply, Divide, EvalShift, EvalLoad, EvalStore, EvalMult, EvalDiv,
         EvalAddr, Effective, Wrap;
  }

  lemma DivAgrees(signed: bool, a: Word, b: Word)
    ensures EvalDiv(signed, a, b) == if signed && QuotientOverflows(a, b) then None else Some(Divide(signed, a, b))
  {
  }

  /** The inputs on which the emitted C of `div` has no meaning. */
  predicate DivOverflows(f: Fields, cpu: Cpu) {
    f.op == 0 && f.funct == 0x1A && QuotientOverflows(cpu.gpr[f.rs], cpu.gpr[f.rt])
  }

  lemma MultAgrees(f: Fields, signed: bool, cpu: Cpu)
    ensures Run(MultStmt(signed, f.rs, f.rt), cpu) == Some(ExecInstr(Mult(signed, f.rs, f.rt), cpu))
    ensures Run(DivStmt(signed, f.rs, f.rt), cpu)
            == if signed && QuotientOverflows(cpu.gpr[f.rs], cpu.gpr[f.rt]) then None
               else Some(ExecInstr(Div(signed, f.rs, f.rt), cpu))
  {
    DivAgrees(signed, cpu.gpr[f.rs], cpu.gpr[f.rt]);
  }

  lemma AddiuAgrees(f: Fields, cpu: Cpu)
    requires cpu.gpr[0] == 0
    ensures Run(TranslateAddiu(f), cpu) == Some(ExecInstr(AluImm(Add, f.rt, f.rs, SignExtended(f.imm)), cpu))
            <==> !(f.rs == 0 && f.rt == 0 && f.imm != 0)
  {
    var v := SignExtended(f.imm);
    if f.rs == 0 {
      assert Effect(TranslateAddiu(f), cpu) == cpu.(gpr := cpu.gpr[f.rt := v]);
      assert Add32(cpu.gpr[0], v) == v;
      if f.rt == 0 {
        assert cpu.gpr[0 := v][0] == v && ExecInstr(AluImm(Add, 0, 0, v), cpu) == cpu;
        if v == 0 {
          assert cpu.gpr[0 := v] == cpu.gpr;
        }
      }
    }
  }

  lemma LogicImmAgrees(f: Fields, op: CBinary, cpu: Cpu)
    ensures Run(SetRt(f, Bin(op, Gpr(f.rs), UnsignedLit(f))), cpu)
            == Some(ExecInstr(AluImm(AluOf(op), f.rt, f.rs, ZeroExtended(f.imm)), cpu))
    ensures Run(SetRt(f, Shifted(Sll, UnsignedLit(f), By(16))), cpu)
            == Some(ExecInstr(Lui(f.rt, ZeroExtended(f.imm)), cpu))
  {
  }

  lemma OriAgrees(f: Fields, cpu: Cpu)
    requires cpu.gpr[0] == 0
    ensures Run(TranslateOri(f), cpu) == Some(ExecInstr(AluImm(Or, f.rt, f.rs, ZeroExtended(f.imm)), cpu))
  {
  }

  lemma AddressAgrees(f: Fields, cpu: Cpu)
    ensures EvalAddr(AddressOf(f), cpu) == Effective(cpu, f.rs, SignExtended(f.imm))
  {
  }

  function WidthOf(op: LoadOp): CWidth
    requires !op.Lwl? && !op.Lwr?
  {
    match op
    case Lb => SignedByte
    case Lbu => UnsignedByte
    case Lh => SignedHalf
    case Lhu => UnsignedHalf
    case Lw => FullWord
  }

  lemma LoadAgrees(f: Fields, op: LoadOp, cpu: Cpu)
    requires !op.Lwl? && !op.Lwr?
    ensures Run(TranslateLoad(f, WidthOf(op)), cpu) == Some(ExecInstr(Load(op, f.rt, f.rs, SignExtended(f.imm)), cpu))
  {
    AddressAgrees(f, cpu);
  }

  lemma UnalignedLoadAgrees(f: Fields, cpu: Cpu)
    ensures Run(SetRt(f, CallLwl(AddressOf(f), f.rt)), cpu)
            == Some(ExecInstr(Load(Lwl, f.rt, f.rs, SignExtended(f.imm)), cpu))
    ensures Run(SetRt(f, CallLwr(AddressOf(f), f.rt)), cpu)
            == Some(ExecInstr(Load(Lwr, f.rt, f.rs, SignExtended(f.imm)), cpu))
  {
    hide SignExtended, LwlHelper, LwrHelper, SwlHelper, SwrHelper, LoadLeft, LoadRight, StoreLeft, StoreRight,
         Effective;
    AddressAgrees(f, cpu);
    var a := Effective(cpu, f.rs, SignExtended(f.imm));
    LoadHelpersAgree(cpu.mem, a, cpu.gpr[f.rt]);
  }

  lemma UnalignedStoreAgrees(f: Fields, cpu: Cpu)
    ensures Run(CallSwl(AddressOf(f), f.rt), cpu) == Some(ExecInstr(Store(Swl, f.rt, f.rs, SignExtended(f.imm)), cpu))
    ensures Run(CallSwr(AddressOf(f), f.rt), cpu) == Some(ExecInstr(Store(Swr, f.rt, f.rs, SignExtended(f.imm)), cpu))
  {
    hide SignExtended, LwlHelper, LwrHelper, SwlHelper, SwrHelper, LoadLeft, LoadRight, StoreLeft, StoreRight,
         Effective;
    AddressAgrees(f, cpu);
    var a := Effective(cpu, f.rs, SignExtended(f.imm));
    StoreHelpersAgree(cpu.mem, a, cpu.gpr[f.rt]);
  }

  lemma StoreAgrees(f: Fields, cpu: Cpu)
    ensures Run(WriteMem(UnsignedByte, AddressOf(f), f.rt), cpu)
            == Some(ExecInstr(Store(Sb, f.rt, f.rs, SignExtended(f.imm)), cpu))
    ensures Run(WriteMem(UnsignedHalf, AddressOf(f), f.rt), cpu)
            == Some(ExecInstr(Store(Sh, f.rt, f.rs, SignExtended(f.imm)), cpu))
    ensures Run(WriteMem(FullWord, AddressOf(f), f.rt), cpu)
            == Some(ExecInstr(Store(Sw, f.rt, f.rs, SignExtended(f.imm)), cpu))
  {
    AddressAgrees(f, cpu);
  }

  lemma SpecialShiftAgrees(f: Fields, cpu: Cpu)
    requires f.op == 0 && f.funct < 0x08 && IsPlain(f)
    ensures Run(TranslateSpecial(f), cpu) == Some(ExecInstr(DecodeSpecial(f), cpu))
  {
    hide Run, ExecInstr, SetRd, TranslateMoveable, TranslateNor, TranslateSll;
    SllAgrees(f, cpu);
    ShiftAgrees(f, Sll, cpu);
    ShiftAgrees(f, Srl, cpu);
    ShiftAgrees(f, Sra, cpu);
  }

  lemma SpecialMultAgrees(f: Fields, cpu: Cpu)
    requires f.op == 0 && 0x08 <= f.funct < 0x20 && IsPlain(f)
    ensures Run(TranslateSpecial(f), cpu) == if DivOverflows(f, cpu) then None
            else Some(ExecInstr(DecodeSpecial(f), cpu))
  {
    hide Run, ExecInstr, SetRd, TranslateMoveable, TranslateNor, TranslateSll;
    HiLoAgrees(f, cpu);
    MultAgrees(f, true, cpu);
    MultAgrees(f, false, cpu);
  }

  lemma SpecialAluAgrees(f: Fields, cpu: Cpu)
    requires f.op == 0 && 0x20 <= f.funct && IsPlain(f) && cpu.gpr[0] == 0
    ensures Run(TranslateSpecial(f), cpu) == Some(ExecInstr(DecodeSpecial(f), cpu))
  {
    hide Run, ExecInstr, SetRd, TranslateMoveable, TranslateNor, TranslateSll;
    MoveAgrees(f, Plus, cpu);
    MoveAgrees(f, BitOr, cpu);
    AluAgrees(f, Minus, cpu);
    AluAgrees(f, BitAnd, cpu);
    AluAgrees(f, BitXor, cpu);
    NorAgrees(f, cpu);
    CompareAgrees(f, cpu);
  }

  lemma ImmediateAgrees(f: Fields, cpu: Cpu)
    requires 0x08 <= f.op <= 0x0F && cpu.gpr[0] == 0
    ensures Run(TranslateInstruction(f), cpu) == Some(Exec(f, cpu)) <==> !ClobbersZero(f)
  {
    hide Run, ExecInstr, SetRt, TranslateAddiu, TranslateOri, TranslateLoad, AddressOf, TranslateSpecial,
         DecodeSpecial, DecodeRegimm, SignExtended;
    AddiuAgrees(f, cpu);
    CompareImmAgrees(f, cpu);
    LogicImmAgrees(f, BitAnd, cpu);
    LogicImmAgrees(f, BitXor, cpu);
    OriAgrees(f, cpu);
  }

  lemma LoadWordAgrees(f: Fields, cpu: Cpu)
    requires 0x20 <= f.op < 0x28 && IsPlain(f)
    ensures Run(TranslateInstruction(f), cpu) == Some(Exec(f, cpu))
  {
    hide Run, ExecInstr, SetRt, TranslateAddiu, TranslateOri, TranslateLoad, AddressOf, TranslateSpecial,
         DecodeSpecial, DecodeRegimm, SignExtended;
    LoadAgrees(f, Lb, cpu);
    LoadAgrees(f, Lh, cpu);
    LoadAgrees(f, Lw, cpu);
    LoadAgrees(f, Lbu, cpu);
    LoadAgrees(f, Lhu, cpu);
    UnalignedLoadAgrees(f, cpu);
  }

  lemma StoreWordAgrees(f: Fields, cpu: Cpu)
    requires 0x28 <= f.op && IsPlain(f)
    ensures Run(TranslateInstruction(f), cpu) == Some(Exec(f, cpu))
  {
    hide Run, ExecInstr, SetRt, TranslateAddiu, TranslateOri, TranslateLoad, AddressOf, TranslateSpecial,
         DecodeSpecial, DecodeRegimm, SignExtended;
    UnalignedStoreAgrees(f, cpu);
    StoreAgrees(f, cpu);
  }

  /** The emitted statement does to gpr, hi, lo and memory what the instruction does, except
      for exactly the words of `ClobbersZero` and the operands of `DivOverflows`. */
  lemma TranslationCorrect(f: Fields, cpu: Cpu)
    requires IsPlain(f) && cpu.gpr[0] == 0
    ensures Run(TranslateInstruction(f), cpu) == Some(Exec(f, cpu)) <==> !ClobbersZero(f) && !DivOverflows(f, cpu)
    ensures Exec(f, cpu).gpr[0] == 0
  {
    ExecFrame(Decode(f), cpu, 0);
    if f.op == 0 {
      if f.funct < 0x08 {
        SpecialShiftAgrees(f, cpu);
      } else if f.funct < 0x20 {
        SpecialMultAgrees(f, cpu);
      } else {
        SpecialAluAgrees(f, cpu);
      }
    } else if f.op < 0x20 {
      ImmediateAgrees(f, cpu);
    } else if f.op < 0x28 {
      LoadWordAgrees(f, cpu);
    } else {
      StoreWordAgrees(f, cpu);
    }
  }

  /** A word of the family, `addiu $zero, $zero, 1`, and what it does to register 0. */
  lemma ClobberedZeroExample(cpu: Cpu)
    requires cpu.gpr[0] == 0
    ensures var f := FieldsOf(0x2400_0001);
            && IsPlain(f) && ClobbersZero(f)
            && Run(TranslateInstruction(f), cpu) == Some(cpu.(gpr := cpu.gpr[0 := 1]))
            && Exec(f, cpu) == cpu
  {
    var f := FieldsOf(0x2400_0001);
    assert f == Fields(9, 0, 0, 0, 0, 1, 1, 1, 1);
  }

  /** `div $1, $2` with the least integer over minus one: the R3000A leaves the dividend and
      no remainder, the emitted C has no meaning. */
  lemma DivOverflowExample(cpu: Cpu)
    requires cpu.gpr[1] == 0x8000_0000 && cpu.gpr[2] == 0xFFFF_FFFF
    ensures var f := FieldsOf(0x0022_001A);
            && IsPlain(f) && DivOverflows(f, cpu)
            && Run(TranslateInstruction(f), cpu) == None
            && Exec(f, cpu) == cpu.(lo := 0x8000_0000, hi := 0)
  {
    var f := FieldsOf(0x0022_001A);
    assert f == Fields(0, 1, 2, 0, 0, 0x1A, 0x1A, 0x1A, 0x22_001A);
    assert TruncQuotient(-0x8000_0000, -1) == 0x8000_0000;
  }

  /** The emitted condition is the architectural one for every supported branch. */
  lemma ConditionCorrect(f: Fields, cpu: Cpu)
    requires Decode(f).BranchIf? && cpu.gpr[0] == 0
    ensures CondOf(f, cpu) == Holds(Decode(f).cond, cpu.gpr[Decode(f).rs], cpu.gpr[Decode(f).rt])
  {
  }
}
