/** The reference: the MIPS I integer instruction set on a machine that keeps a
    program counter and the next program counter, so that the instruction after a
    control transfer (its delay slot) always executes first.  Follows the IDT R3000
    Family Software Reference Manual; overflow traps, address-error traps and the
    load delay are not part of it. */
module Isa {
  import opened Words

  type Regs = s: seq<Word> | |s| == 32 witness seq(32, _ => 0)

  datatype Cpu = Cpu(gpr: Regs, hi: Word, lo: Word, mem: Memory)

  datatype AluOp = Add | Sub | And | Or | Xor | Nor | Slt | Sltu
  datatype ShiftOp = Sll | Srl | Sra
  datatype LoadOp = Lb | Lbu | Lh | Lhu | Lw | Lwl | Lwr
  datatype StoreOp = Sb | Sh | Sw | Swl | Swr
  datatype Cond = Eq | Ne | Lez | Gtz | Ltz | Gez

  /** A decoded instruction.  Immediates are already extended to 32 bits; branch
      offsets count words. */
  datatype Instr =
    | Alu(aop: AluOp, rd: Reg, rs: Reg, rt: Reg)
    | AluImm(aop: AluOp, rt: Reg, rs: Reg, operand: Word)
    | Lui(rt: Reg, operand: Word)
    | Shift(sop: ShiftOp, rd: Reg, rt: Reg, sa: Amount)
    | ShiftVar(sop: ShiftOp, rd: Reg, rt: Reg, rs: Reg)
    | Mult(signed: bool, rs: Reg, rt: Reg)
    | Div(signed: bool, rs: Reg, rt: Reg)
    | MoveFromHi(rd: Reg)
    | MoveFromLo(rd: Reg)
    | MoveToHi(rs: Reg)
    | MoveToLo(rs: Reg)
    | Load(lop: LoadOp, rt: Reg, base: Reg, disp: Word)
    | Store(stop: StoreOp, rt: Reg, base: Reg, disp: Word)
    | BranchIf(cond: Cond, rs: Reg, rt: Reg, off: int, links: bool)
    | Jump(index: int, links: bool)
    | JumpReg(rs: Reg)
    | JumpLinkReg(rd: Reg, rs: Reg)
    | Reserved

  function DecodeSpecial(f: Fields): Instr {
    match f.funct
    case 0x00 => Shift(Sll, f.rd, f.rt, f.shamt)
    case 0x02 => Shift(Srl, f.rd, f.rt, f.shamt)
    case 0x03 => Shift(Sra, f.rd, f.rt, f.shamt)
    case 0x04 => ShiftVar(Sll, f.rd, f.rt, f.rs)
    case 0x06 => ShiftVar(Srl, f.rd, f.rt, f.rs)
    case 0x07 => ShiftVar(Sra, f.rd, f.rt, f.rs)
    case 0x08 => JumpReg(f.rs)
    case 0x09 => JumpLinkReg(f.rd, f.rs)
    case 0x10 => MoveFromHi(f.rd)
    case 0x11 => MoveToHi(f.rs)
    case 0x12 => MoveFromLo(f.rd)
    case 0x13 => MoveToLo(f.rs)
    case 0x18 => Mult(true, f.rs, f.rt)
    case 0x19 => Mult(false, f.rs, f.rt)
    case 0x1A => Div(true, f.rs, f.rt)
    case 0x1B => Div(false, f.rs, f.rt)
    case 0x20 => Alu(Add, f.rd, f.rs, f.rt)
    case 0x21 => Alu(Add, f.rd, f.rs, f.rt)
    case 0x22 => Alu(Sub, f.rd, f.rs, f.rt)
    case 0x23 => Alu(Sub, f.rd, f.rs, f.rt)
    case 0x24 => Alu(And, f.rd, f.rs, f.rt)
    case 0x25 => Alu(Or, f.rd, f.rs, f.rt)
    case 0x26 => Alu(Xor, f.rd, f.rs, f.rt)
    case 0x27 => Alu(Nor, f.rd, f.rs, f.rt)
    case 0x2A => Alu(Slt, f.rd, f.rs, f.rt)
    case 0x2B => Alu(Sltu, f.rd, f.rs, f.rt)
    case _ => Reserved
  }

  function DecodeRegimm(f: Fields): Instr {
    match f.rt
    case 0x00 => BranchIf(Ltz, f.rs, 0, f.simm, false)
    case 0x01 => BranchIf(Gez, f.rs, 0, f.simm, false)
    case 0x10 => BranchIf(Ltz, f.rs, 0, f.simm, true)
    case 0x11 => BranchIf(Gez, f.rs, 0, f.simm, true)
    case _ => Reserved
  }

  function Decode(f: Fields): Instr {
    match f.op
    case 0x00 => DecodeSpecial(f)
    case 0x01 => DecodeRegimm(f)
    case 0x02 => Jump(f.index, false)
    case 0x03 => Jump(f.index, true)
    case 0x04 => BranchIf(Eq, f.rs, f.rt, f.simm, false)
    case 0x05 => BranchIf(Ne, f.rs, f.rt, f.simm, false)
    case 0x06 => BranchIf(Lez, f.rs, 0, f.simm, false)
    case 0x07 => BranchIf(Gtz, f.rs, 0, f.simm, false)
    case 0x08 => AluImm(Add, f.rt, f.rs, SignExtended(f.imm))
    case 0x09 => AluImm(Add, f.rt, f.rs, SignExtended(f.imm))
    case 0x0A => AluImm(Slt, f.rt, f.rs, SignExtended(f.imm))
    case 0x0B => AluImm(Sltu, f.rt, f.rs, SignExtended(f.imm))
    case 0x0C => AluImm(And, f.rt, f.rs, ZeroExtended(f.imm))
    case 0x0D => AluImm(Or, f.rt, f.rs, ZeroExtended(f.imm))
    case 0x0E => AluImm(Xor, f.rt, f.rs, ZeroExtended(f.imm))
    case 0x0F => Lui(f.rt, ZeroExtended(f.imm))
    case 0x20 => Load(Lb, f.rt, f.rs, SignExtended(f.imm))
    case 0x21 => Load(Lh, f.rt, f.rs, SignExtended(f.imm))
    case 0x22 => Load(Lwl, f.rt, f.rs, SignExtended(f.imm))
    case 0x23 => Load(Lw, f.rt, f.rs, SignExtended(f.imm))
    case 0x24 => Load(Lbu, f.rt, f.rs, SignExtended(f.imm))
    case 0x25 => Load(Lhu, f.rt, f.rs, SignExtended(f.imm))
    case 0x26 => Load(Lwr, f.rt, f.rs, SignExtended(f.imm))
    case 0x28 => Store(Sb, f.rt, f.rs, SignExtended(f.imm))
    case 0x29 => Store(Sh, f.rt, f.rs, SignExtended(f.imm))
    case 0x2A => Store(Swl, f.rt, f.rs, SignExtended(f.imm))
    case 0x2B => Store(Sw, f.rt, f.rs, SignExtended(f.imm))
    case 0x2E => Store(Swr, f.rt, f.rs, SignExtended(f.imm))
    case _ => Reserved
  }

  predicate IsTransfer(i: Instr) {
    i.BranchIf? || i.Jump? || i.JumpReg? || i.JumpLinkReg?
  }

  /** Words with a meaning here that do not transfer control. */
  predicate IsPlain(f: Fields) {
    var i := Decode(f);
    !i.Reserved? && !IsTransfer(i)
  }

  // ---- effect of the instructions that do not transfer control ----

  /** Register 0 reads as whatever it holds; writing it has no effect. */
  function WriteReg(cpu: Cpu, r: Reg, v: Word): Cpu {
    if r == 0 then cpu else cpu.(gpr := cpu.gpr[r := v])
  }

  function AluValue(op: AluOp, a: Word, b: Word): Word {
    match op
    case Add => Add32(a, b)
    case Sub => Sub32(a, b)
    case And => And32(a, b)
    case Or => Or32(a, b)
    case Xor => Xor32(a, b)
    case Nor => Not32(Or32(a, b))
    case Slt => Bit(LessSigned(a, b))
    case Sltu => Bit(a < b)
  }

  function ShiftValue(op: ShiftOp, v: Word, k: Amount): Word {
    match op
    case Sll => Shl32(v, k)
    case Srl => Shr32(v, k)
    case Sra => Sar32(v, k)
  }

  function Effective(cpu: Cpu, base: Reg, disp: Word): Word {
    Add32(cpu.gpr[base], disp)
  }

  /** The unaligned loads and stores move the bytes between the addressed byte and
      the end of its word, one byte at a time; the rest is kept. */
  function LoadLeft(m: Memory, a: Word, prev: Word): Word {
    match a % 4
    case 0 => Join(Byte0(prev), Byte1(prev), Byte2(prev), ByteAt(m, a))
    case 1 => Join(Byte0(prev), Byte1(prev), ByteAt(m, a - 1), ByteAt(m, a))
    case 2 => Join(Byte0(prev), ByteAt(m, a - 2), ByteAt(m, a - 1), ByteAt(m, a))
    case _ => Join(ByteAt(m, a - 3), ByteAt(m, a - 2), ByteAt(m, a - 1), ByteAt(m, a))
  }

  function LoadRight(m: Memory, a: Word, prev: Word): Word {
    match a % 4
    case 0 => Join(ByteAt(m, a), ByteAt(m, a + 1), ByteAt(m, a + 2), ByteAt(m, a + 3))
    case 1 => Join(ByteAt(m, a), ByteAt(m, a + 1), ByteAt(m, a + 2), Byte3(prev))
    case 2 => Join(ByteAt(m, a), ByteAt(m, a + 1), Byte2(prev), Byte3(prev))
    case _ => Join(ByteAt(m, a), Byte1(prev), Byte2(prev), Byte3(prev))
  }

  /** The aligned word at `p` with its four bytes given anew. */
  function Splice(m: Memory, p: Word, b0: Byte, b1: Byte, b2: Byte, b3: Byte): Memory
    requires Aligned(p)
  {
    m[p := b0][p + 1 := b1][p + 2 := b2][p + 3 := b3]
  }

  function StoreLeft(m: Memory, a: Word, v: Word): Memory {
    match a % 4
    case 0 => Splice(m, a, Byte3(v), ByteAt(m, a + 1), ByteAt(m, a + 2), ByteAt(m, a + 3))
    case 1 => Splice(m, a - 1, Byte2(v), Byte3(v), ByteAt(m, a + 1), ByteAt(m, a + 2))
    case 2 => Splice(m, a - 2, Byte1(v), Byte2(v), Byte3(v), ByteAt(m, a + 1))
    case _ => Splice(m, a - 3, Byte0(v), Byte1(v), Byte2(v), Byte3(v))
  }

  function StoreRight(m: Memory, a: Word, v: Word): Memory {
    match a % 4
    case 0 => Splice(m, a, Byte0(v), Byte1(v), Byte2(v), Byte3(v))
    case 1 => Splice(m, a - 1, ByteAt(m, a - 1), Byte0(v), Byte1(v), Byte2(v))
    case 2 => Splice(m, a - 2, ByteAt(m, a - 2), ByteAt(m, a - 1), Byte0(v), Byte1(v))
    case _ => Splice(m, a - 3, ByteAt(m, a - 3), ByteAt(m, a - 2), ByteAt(m, a - 1), Byte0(v))
  }

  function LoadValue(op: LoadOp, m: Memory, a: Word, prev: Word): Word {
    match op
    case Lb => SignExtend8(ByteAt(m, a))
    case Lbu => ByteAt(m, a)
    case Lh => SignExtend16(LoadHalf(m, a))
    case Lhu => LoadHalf(m, a)
    case Lw => LoadWord(m, a)
    case Lwl => LoadLeft(m, a, prev)
    case Lwr => LoadRight(m, a, prev)
  }

  function StoreMem(op: StoreOp, m: Memory, a: Word, v: Word): Memory {
    match op
    case Sb => StoreByte(m, a, v)
    case Sh => StoreHalf(m, a, v)
    case Sw => StoreWord(m, a, v)
    case Swl => StoreLeft(m, a, v)
    case Swr => StoreRight(m, a, v)
  }

  function Multiply(signed: bool, a: Word, b: Word): int {
    if signed then ToSigned(a) * ToSigned(b) else a * b
  }

  /** Quotient and remainder; a zero divisor does not trap. */
  function Divide(signed: bool, a: Word, b: Word): (Word, Word) {
    if b == 0 then
      (if signed && Negative(a) then 1 else 0xFFFF_FFFF, a)
    else if signed then
      assert ToSigned(b) != 0;
      (Wrap(TruncQuotient(ToSigned(a), ToSigned(b))), Wrap(TruncRemainder(ToSigned(a), ToSigned(b))))
    else
      assert b != 0;
      (Wrap(a / b), Wrap(a % b))
  }

  function ExecInstr(i: Instr, cpu: Cpu): Cpu {
    match i
    case Alu(op, rd, rs, rt) => WriteReg(cpu, rd, AluValue(op, cpu.gpr[rs], cpu.gpr[rt]))
    case AluImm(op, rt, rs, v) => WriteReg(cpu, rt, AluValue(op, cpu.gpr[rs], v))
    case Lui(rt, v) => WriteReg(cpu, rt, Shl32(v, 16))
    case Shift(op, rd, rt, sa) => WriteReg(cpu, rd, ShiftValue(op, cpu.gpr[rt], sa))
    case ShiftVar(op, rd, rt, rs) => WriteReg(cpu, rd, ShiftValue(op, cpu.gpr[rt], LowFive(cpu.gpr[rs])))
    case Mult(signed, rs, rt) =>
      var p := Multiply(signed, cpu.gpr[rs], cpu.gpr[rt]);
      cpu.(lo := Wrap(p), hi := Wrap(p / WORD_LIMIT))
    case Div(signed, rs, rt) =>
      var (q, r) := Divide(signed, cpu.gpr[rs], cpu.gpr[rt]);
      cpu.(lo := q, hi := r)
    case MoveFromHi(rd) => WriteReg(cpu, rd, cpu.hi)
    case MoveFromLo(rd) => WriteReg(cpu, rd, cpu.lo)
    case MoveToHi(rs) => cpu.(hi := cpu.gpr[rs])
    case MoveToLo(rs) => cpu.(lo := cpu.gpr[rs])
    case Load(op, rt, base, disp) =>
      WriteReg(cpu, rt, LoadValue(op, cpu.mem, Effective(cpu, base, disp), cpu.gpr[rt]))
    case Store(op, rt, base, disp) =>
      cpu.(mem := StoreMem(op, cpu.mem, Effective(cpu, base, disp), cpu.gpr[rt]))
    case _ => cpu
  }

  function Exec(f: Fields, cpu: Cpu): Cpu {
    ExecInstr(Decode(f), cpu)
  }

  // ---- control transfers and the pc / next-pc machine ----

  predicate Holds(c: Cond, a: Word, b: Word) {
    match c
    case Eq => a == b
    case Ne => a != b
    case Lez => Negative(a) || a == 0
    case Gtz => !Negative(a) && a != 0
    case Ltz => Negative(a)
    case Gez => !Negative(a)
  }

  /** What a transfer at `pc` writes, and the address control goes to after the
      delay slot (`None`: on past the delay slot). */
  function Transfer(i: Instr, pc: Word, cpu: Cpu): (Cpu, Option<Word>) {
    match i
    case BranchIf(c, rs, rt, off, links) =>
      (if links then WriteReg(cpu, 31, Wrap(pc + 8)) else cpu,
       if Holds(c, cpu.gpr[rs], cpu.gpr[rt]) then Some(Wrap(pc + 4 + 4 * off)) else None)
    case Jump(index, links) =>
      (if links then WriteReg(cpu, 31, Wrap(pc + 8)) else cpu,
       Some(Wrap(Wrap(pc + 4) / 0x1000_0000 * 0x1000_0000 + 4 * index)))
    case JumpReg(rs) => (cpu, Some(cpu.gpr[rs]))
    case JumpLinkReg(rd, rs) => (WriteReg(cpu, rd, Wrap(pc + 8)), Some(cpu.gpr[rs]))
    case _ => (cpu, None)
  }

  datatype Machine = Machine(pc: Word, npc: Word, cpu: Cpu)

  /** The machine about to execute the instruction at `a` with no transfer pending. */
  function At(a: Word, cpu: Cpu): Machine {
    Machine(a, Wrap(a + 4), cpu)
  }

  function StepWord(f: Fields, m: Machine): Machine {
    var i := Decode(f);
    if IsTransfer(i) then
      var (cpu, target) := Transfer(i, m.pc, m.cpu);
      Machine(m.npc, if target.Some? then target.value else Wrap(m.npc + 4), cpu)
    else
      Machine(m.npc, Wrap(m.npc + 4), ExecInstr(i, m.cpu))
  }

  // ---- frame facts ----

  /** The registers an instruction may change. */
  function Writes(i: Instr): set<Reg> {
    match i
    case Alu(_, rd, _, _) => {rd}
    case AluImm(_, rt, _, _) => {rt}
    case Lui(rt, _) => {rt}
    case Shift(_, rd, _, _) => {rd}
    case ShiftVar(_, rd, _, _) => {rd}
    case MoveFromHi(rd) => {rd}
    case MoveFromLo(rd) => {rd}
    case Load(_, rt, _, _) => {rt}
    case BranchIf(_, _, _, _, links) => if links then {31} else {}
    case Jump(_, links) => if links then {31} else {}
    case JumpLinkReg(rd, _) => {rd}
    case _ => {}
  }

  lemma ExecFrame(i: Instr, cpu: Cpu, r: Reg)
    requires !IsTransfer(i)
    requires r == 0 || r !in Writes(i)
    ensures ExecInstr(i, cpu).gpr[r] == cpu.gpr[r]
  {
  }
}
