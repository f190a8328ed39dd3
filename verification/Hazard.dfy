/** The branch-delay hazard scan: conditional branches whose delay slot writes a register
    they compare.  A branch it does not flag has the same condition before and after its
    slot. */
module Hazard {
  import opened Words
  import opened Isa
  import opened ControlFlow
  import Translate

  /** The conditional branches the scan looks at, with the registers they compare. */
  datatype CondBranch = CondBranch(rs: Reg, rt: Option<Reg>)

  function IsCondBranch(f: Fields): Option<CondBranch> {
    if f.op == 0x04 || f.op == 0x05 then Some(CondBranch(f.rs, Some(f.rt)))
    else if f.op == 0x06 || f.op == 0x07 then Some(CondBranch(f.rs, None))
    else if f.op == 0x01 && (f.rt == 0x00 || f.rt == 0x01) then Some(CondBranch(f.rs, None))
    else None
  }

  function SpecialWrites(f: Fields): set<Reg> {
    if f.funct in {0x00, 0x02, 0x03, 0x04, 0x06, 0x07, 0x20, 0x21, 0x22, 0x23, 0x24, 0x25, 0x26, 0x27, 0x2A,
      0x2B} then {f.rd}
    else if f.funct == 0x10 || f.funct == 0x12 then {f.rd}
    else if f.funct == 0x09 then {f.rd}
    else {}
  }

  /** Registers an instruction word may change; none for an unknown opcode, which the
      source raises an error for. */
  function InstrWritesToGpr(w: Word): Option<set<Reg>> {
    var f := FieldsOf(w);
    if w == 0 then Some({})
    else if f.op == 0x00 then Some(SpecialWrites(f))
    else if f.op == 0x01 then Some(if f.rt == 0x10 || f.rt == 0x11 then {31} else {})
    else if f.op == 0x02 then Some({})
    else if f.op == 0x03 then Some({31})
    else if 0x04 <= f.op <= 0x07 then Some({})
    else if 0x08 <= f.op <= 0x0F then Some({f.rt})
    else if f.op == 0x10 then Some(if f.rs == 0 then {f.rt} else {})
    else if f.op == 0x11 || f.op == 0x12 then Some({})
    else if 0x20 <= f.op <= 0x26 then Some({f.rt})
    else if f.op in {0x28, 0x29, 0x2A, 0x2B, 0x2E} then Some({})
    else if f.op in {0x30, 0x31, 0x32, 0x33, 0x38, 0x39, 0x3A, 0x3B} then Some({})
    else None
  }

  lemma SpecialWritesExact(f: Fields, r: Reg)
    requires f.op == 0 && !DecodeSpecial(f).Reserved? && r != 0
    ensures r in SpecialWrites(f) <==> r in Writes(DecodeSpecial(f))
  {
  }

  /** The all-zero word is a shift of register 0. */
  lemma ZeroWord(r: Reg)
    requires r != 0
    ensures r !in Writes(Decode(FieldsOf(0)))
  {
    assert FieldsOf(0) == Fields(0, 0, 0, 0, 0, 0, 0, 0, 0);
  }

  lemma OtherWritesExact(w: Word, r: Reg)
    requires !Decode(FieldsOf(w)).Reserved? && r != 0 && w != 0 && FieldsOf(w).op != 0
    ensures InstrWritesToGpr(w).Some? && (r in InstrWritesToGpr(w).value <==> r in Writes(Decode(FieldsOf(w))))
  {
    hide SignExtended, ZeroExtended, FieldsOf, DecodeSpecial, SpecialWrites;
  }

  /** For every instruction of the reference the answer is exact, register 0 aside: the
      listed registers are those the instruction writes. */
  lemma WritesExact(w: Word, r: Reg)
    requires !Decode(FieldsOf(w)).Reserved? && r != 0
    ensures InstrWritesToGpr(w).Some? && (r in InstrWritesToGpr(w).value <==> r in Writes(Decode(FieldsOf(w))))
  {
    hide SignExtended, ZeroExtended, FieldsOf, DecodeSpecial, SpecialWrites, Writes;
    if w == 0 {
      ZeroWord(r);
    } else if FieldsOf(w).op == 0 {
      SpecialWritesExact(FieldsOf(w), r);
    } else {
      OtherWritesExact(w, r);
    }
  }

  /** The scan's verdict on a branch and its slot. */
  predicate Flagged(b: CondBranch, written: set<Reg>) {
    (b.rs in written && b.rs != 0) || (b.rt.Some? && b.rt.value in written && b.rt.value != 0)
  }

  /** The condition reads nothing but the registers the scan compares. */
  lemma ConditionReads(f: Fields, c1: Cpu, c2: Cpu)
    requires IsCondBranch(f).Some?
    requires var b := IsCondBranch(f).value;
             c1.gpr[b.rs] == c2.gpr[b.rs] && (b.rt.Some? ==> c1.gpr[b.rt.value] == c2.gpr[b.rt.value])
    ensures Translate.CondOf(f, c1) == Translate.CondOf(f, c2)
  {
  }

  /** The frame lemma: in every state, an unflagged branch's condition is the same before and
      after a plain delay slot. */
  lemma UnflaggedIsSafe(f: Fields, slot: Word, cpu: Cpu)
    requires IsCondBranch(f).Some? && IsPlain(FieldsOf(slot))
    requires InstrWritesToGpr(slot).Some? && !Flagged(IsCondBranch(f).value, InstrWritesToGpr(slot).value)
    ensures Translate.CondOf(f, Isa.Exec(FieldsOf(slot), cpu)) == Translate.CondOf(f, cpu)
  {
    hide FieldsOf, Decode, ExecInstr, InstrWritesToGpr, Translate.CondOf, Writes;
    var b := IsCondBranch(f).value;
    var i := Decode(FieldsOf(slot));
    if b.rs != 0 { WritesExact(slot, b.rs); }
    ExecFrame(i, cpu, b.rs);
    if b.rt.Some? {
      if b.rt.value != 0 { WritesExact(slot, b.rt.value); }
      ExecFrame(i, cpu, b.rt.value);
    }
    ConditionReads(f, Isa.Exec(FieldsOf(slot), cpu), cpu);
  }

  /** The emitted slot leaves the branch's condition as it was, wherever C defines the slot. */
  ghost predicate SameCondition(f: Fields, slot: Fields, cpu: Cpu) {
    var r := Translate.Run(Translate.TranslateInstruction(slot), cpu);
    cpu.gpr[0] == 0 && r.Some? ==> Translate.CondOf(f, r.value) == Translate.CondOf(f, cpu)
  }

  /** The slot sets register 0, which the scan leaves out, to a value that can turn this
      branch: one of two compared registers is register 0, or the only one is and the sign
      of the value matters. */
  predicate Turns(f: Fields, slot: Fields) {
    && Translate.ClobbersZero(slot)
    && if f.op == 0x04 || f.op == 0x05 then (f.rs == 0) != (f.rt == 0)
       else if f.op == 0x06 || f.op == 0x07 then f.rs == 0 && slot.imm < 0x8000
       else f.rs == 0 && slot.imm >= 0x8000
  }

  lemma ClobberEffect(slot: Fields, cpu: Cpu)
    requires Translate.ClobbersZero(slot)
    ensures Translate.Run(Translate.TranslateInstruction(slot), cpu)
            == Some(cpu.(gpr := cpu.gpr[0 := SignExtended(slot.imm)]))
  {
  }

  lemma ImmediateSign(imm: Half)
    requires imm != 0
    ensures SignExtended(imm) != 0 && (Negative(SignExtended(imm)) <==> imm >= 0x8000)
    ensures LessSigned(0, SignExtended(imm)) <==> imm < 0x8000
    ensures LessSigned(SignExtended(imm), 0) <==> imm >= 0x8000
  {
  }

  lemma TurnedOrNot(f: Fields, slot: Fields, cpu: Cpu)
    requires IsCondBranch(f).Some? && Translate.ClobbersZero(slot) && cpu.gpr[0] == 0
    ensures !Turns(f, slot) ==> SameCondition(f, slot, cpu)
    ensures Turns(f, slot) && cpu.gpr[f.rs] == 0 == cpu.gpr[f.rt] ==> !SameCondition(f, slot, cpu)
  {
    hide SignExtended, LessSigned, Negative, Translate.TranslateInstruction, Translate.Run, ToSigned;
    ClobberEffect(slot, cpu);
    ImmediateSign(slot.imm);
    ZeroIsNotLess();
  }

  lemma ZeroIsNotLess()
    ensures !LessSigned(0, 0)
  {
  }

  /** For the C emitted for the slot: an unflagged branch has the same condition before and
      after it in every state, if and only if the pair is not one of `Turns`. */
  lemma UnflaggedEmitted(f: Fields, slot: Word)
    requires IsCondBranch(f).Some? && IsPlain(FieldsOf(slot))
    requires InstrWritesToGpr(slot).Some? && !Flagged(IsCondBranch(f).value, InstrWritesToGpr(slot).value)
    ensures (forall cpu :: SameCondition(f, FieldsOf(slot), cpu)) <==> !Turns(f, FieldsOf(slot))
  {
    hide FieldsOf, Decode, ExecInstr, InstrWritesToGpr, IsCondBranch, Flagged, Turns, SameCondition;
    if Turns(f, FieldsOf(slot)) {
      var zeros := AllZero();
      TurnsClobbers(f, FieldsOf(slot));
      TurnedOrNot(f, FieldsOf(slot), zeros);
    } else {
      forall cpu ensures SameCondition(f, FieldsOf(slot), cpu) {
        UnflaggedSame(f, slot, cpu);
      }
    }
  }

  lemma TurnsClobbers(f: Fields, slot: Fields)
    requires Turns(f, slot)
    ensures Translate.ClobbersZero(slot)
  {
  }

  lemma AllZero() returns (cpu: Cpu)
    ensures forall r: Reg :: cpu.gpr[r] == 0
  {
    cpu := Cpu(seq(32, _ => 0), 0, 0, map[]);
  }

  lemma UnflaggedSame(f: Fields, slot: Word, cpu: Cpu)
    requires IsCondBranch(f).Some? && IsPlain(FieldsOf(slot)) && !Turns(f, FieldsOf(slot))
    requires InstrWritesToGpr(slot).Some? && !Flagged(IsCondBranch(f).value, InstrWritesToGpr(slot).value)
    ensures SameCondition(f, FieldsOf(slot), cpu)
  {
    hide FieldsOf, Decode, ExecInstr, InstrWritesToGpr, Translate.CondOf, Translate.Run,
         Translate.TranslateInstruction, Turns, Translate.DivOverflows, Translate.ClobbersZero;
    if cpu.gpr[0] == 0 {
      if Translate.ClobbersZero(FieldsOf(slot)) {
        TurnedOrNot(f, FieldsOf(slot), cpu);
      } else if !Translate.DivOverflows(FieldsOf(slot), cpu) {
        UnflaggedIsSafe(f, slot, cpu);
        Translate.TranslationCorrect(FieldsOf(slot), cpu);
      } else {
        OverflowHasNoResult(FieldsOf(slot), cpu);
      }
    }
  }

  lemma OverflowHasNoResult(slot: Fields, cpu: Cpu)
    requires Translate.DivOverflows(slot, cpu)
    ensures Translate.Run(Translate.TranslateInstruction(slot), cpu) == None
  {
  }

  /** bne $0, $1 over addiu $0, $0, 1 is not flagged, yet the slot turns its condition. */
  lemma ClobberedZeroIsMissed(cpu: Cpu)
    requires cpu.gpr[0] == 0 && cpu.gpr[1] == 0
    ensures var bne := FieldsOf(0x1401_0000);
            var slot: Word := 0x2400_0001;
            && IsCondBranch(bne).Some? && IsPlain(FieldsOf(slot)) && Turns(bne, FieldsOf(slot))
            && InstrWritesToGpr(slot).Some? && !Flagged(IsCondBranch(bne).value, InstrWritesToGpr(slot).value)
            && !Translate.CondOf(bne, cpu) && !SameCondition(bne, FieldsOf(slot), cpu)
  {
    var bne := FieldsOf(0x1401_0000);
    assert bne.op == 5 && bne.rs == 0 && bne.rt == 1;
    var slot := FieldsOf(0x2400_0001);
    assert slot.op == 9 && slot.rs == 0 && slot.rt == 0 && slot.imm == 1;
    ClobberedTurns(bne, slot, cpu);
  }

  lemma ClobberedTurns(bne: Fields, slot: Fields, cpu: Cpu)
    requires bne.op == 5 && bne.rs == 0 && bne.rt == 1 && cpu.gpr[0] == 0 == cpu.gpr[1]
    requires slot.op == 9 && slot.rs == 0 && slot.rt == 0 && slot.imm == 1
    ensures Turns(bne, slot) && !SameCondition(bne, slot, cpu) && !Translate.CondOf(bne, cpu)
  {
    hide SameCondition, Translate.TranslateInstruction, Translate.Run;
    TurnedOrNot(bne, slot, cpu);
  }

  // ---- the scan ----

  datatype Report =
    | Bail(delayAddr: int)
    | Report(hazards: set<int>, safe: nat, branches: nat, noDelay: nat)

  /** The delay slot's word: walked, or read from the image. */
  function SlotWord(img: Image, instrs: map<int, Word>, a: int): Option<Word> {
    if a + 4 in instrs then Some(instrs[a + 4]) else img.ReadWord(a + 4)
  }

  /** A hazard, in terms of the scan's own tests. */
  predicate IsHazard(img: Image, instrs: map<int, Word>, a: int) {
    && a in instrs && IsCondBranch(FieldsOf(instrs[a])).Some? && SlotWord(img, instrs, a).Some?
    && var written := InstrWritesToGpr(SlotWord(img, instrs, a).value);
       written.Some? && Flagged(IsCondBranch(FieldsOf(instrs[a])).value, written.value)
  }

  /** The hazard loop over the walked addresses in order. */
  method ScanHazards(img: Image, instrs: map<int, Word>, order: seq<int>) returns (r: Report)
    requires StrictlyIncreasing(order) && forall a :: a in order <==> a in instrs
    ensures r.Report? ==>
              && (forall a :: a in r.hazards <==> IsHazard(img, instrs, a))
              && r.branches == |r.hazards| + r.safe + r.noDelay
              && forall a ::
                   (a in instrs && IsCondBranch(FieldsOf(instrs[a])).Some? && SlotWord(img, instrs, a).Some?) ==>
                     InstrWritesToGpr(SlotWord(img, instrs, a).value).Some?
    ensures r.Bail? ==> SlotWord(img, instrs, r.delayAddr - 4).Some?
                        && InstrWritesToGpr(SlotWord(img, instrs, r.delayAddr - 4).value) == None
  {
    hide FieldsOf, InstrWritesToGpr, IsCondBranch, Flagged;
    var hazards: set<int> := {};
    var safe, branches, noDelay := 0, 0, 0;
    var k := 0;
    while k < |order|
      invariant 0 <= k <= |order|
      invariant forall a :: a in hazards <==> a in order[..k] && IsHazard(img, instrs, a)
      invariant branches == |hazards| + safe + noDelay
      invariant forall a ::
                  (a in order[..k] && IsCondBranch(FieldsOf(instrs[a])).Some? && SlotWord(img, instrs, a).Some?) ==>
                    InstrWritesToGpr(SlotWord(img, instrs, a).value).Some?
    {
      var a := order[k];
      assert order[..k + 1] == order[..k] + [a];
      assert a !in order[..k];
      assert a in instrs;
      var cb := IsCondBranch(FieldsOf(instrs[a]));
      if cb.Some? {
        branches := branches + 1;
        var slot := SlotWord(img, instrs, a);
        if slot == None {
          noDelay := noDelay + 1;
        } else {
          var written := InstrWritesToGpr(slot.value);
          if written == None {
            return Bail(a + 4);
          }
          if Flagged(cb.value, written.value) {
            hazards := hazards + {a};
          } else {
            safe := safe + 1;
          }
        }
      }
      k := k + 1;
    }
    assert order[..k] == order;
    r := Report(hazards, safe, branches, noDelay);
  }
}
