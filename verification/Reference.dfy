/** Runs of the reference machine over an image, and the conditions on the code under
    which the emitter is meant to work. */
module Reference {
  import opened Words
  import opened Isa
  import opened ControlFlow
  import Translate

  /** One instruction; stuck where the image has no word. */
  function RefStep(img: Image, m: Machine): Option<Machine> {
    var w := img.ReadWord(m.pc);
    if w == None then None else Some(StepWord(FieldsOf(w.value), m))
  }

  function RefRun(img: Image, m: Machine, n: nat): Option<Machine>
    decreases n
  {
    if n == 0 then Some(m)
    else
      var next := RefStep(img, m);
      if next == None then None else RefRun(img, next.value, n - 1)
  }

  lemma {:induction false} RefRunSplit(img: Image, m: Machine, n: nat, k: nat)
    requires RefRun(img, m, n).Some?
    ensures RefRun(img, m, n + k) == RefRun(img, RefRun(img, m, n).value, k)
    decreases n
  {
    hide RefStep;
    if n > 0 {
      RefRunSplit(img, RefStep(img, m).value, n - 1, k);
    }
  }

  // ---- conditions on the code ----

  /** An instruction the emitter translates faithfully wherever it stands. */
  predicate GoodPlain(img: Image, x: int) {
    var w := img.ReadWord(x);
    w.Some? && IsPlain(FieldsOf(w.value)) && !Translate.ClobbersZero(FieldsOf(w.value))
  }

  /** The slot keeps the register a register transfer jumps through. */
  predicate SlotKeeps(slot: Instr, r: Reg) {
    r == 0 || r !in Writes(slot)
  }

  /** A supported transfer (no branch-likely) to a nonzero address, over a plain delay slot
      that leaves alone the registers the emitted code reads or rewrites behind it. */
  predicate GoodTransfer(img: Image, c: int) {
    && img.ReadWord(c).Some?
    && GoodPlain(img, c + 4)
    && var i := Decode(FieldsOf(img.ReadWord(c).value));
       var slot := Decode(FieldsOf(img.ReadWord(c + 4).value));
       match i
       case BranchIf(_, rs, _, _, links) =>
         && AnalyzeInstruction(c, img.ReadWord(c).value).target != 0
         && (links ==> rs != 31 && SlotKeeps(slot, 31))
       case Jump(_, links) =>
         && AnalyzeInstruction(c, img.ReadWord(c).value).target != 0
         && (links ==> SlotKeeps(slot, 31))
       case JumpReg(rs) => SlotKeeps(slot, rs)
       case JumpLinkReg(rd, rs) => (rd == 0 || rd != rs) && SlotKeeps(slot, rs) && SlotKeeps(slot, rd)
       case _ => false
  }

  /** The machine is about to divide the least integer by minus one. */
  predicate AtOverflow(img: Image, m: Machine) {
    var w := img.ReadWord(m.pc);
    w.Some? && Translate.DivOverflows(FieldsOf(w.value), m.cpu)
  }

  /** It does not do so in its next `n` instructions. */
  ghost predicate NoOverflow(img: Image, m: Machine, n: nat) {
    forall k: nat :: k < n ==> RefRun(img, m, k).Some? ==> !AtOverflow(img, RefRun(img, m, k).value)
  }

  lemma NoOverflowNow(img: Image, m: Machine, n: nat)
    requires NoOverflow(img, m, n) && n > 0
    ensures !AtOverflow(img, m)
  {
    hide AtOverflow, RefStep;
    assert RefRun(img, m, 0) == Some(m);
  }

  lemma NoOverflowLater(img: Image, m: Machine, k: nat, n: nat)
    requires NoOverflow(img, m, k + n) && RefRun(img, m, k).Some?
    ensures NoOverflow(img, RefRun(img, m, k).value, n)
  {
    hide AtOverflow, RefRun;
    var m' := RefRun(img, m, k).value;
    forall j: nat | j < n && RefRun(img, m', j).Some? ensures !AtOverflow(img, RefRun(img, m', j).value) {
      RefRunSplit(img, m, k, j);
    }
  }

  // ---- the analyser's classification is the architecture's ----

  lemma PlainIsNotControlFlow(f: Fields)
    requires IsPlain(f)
    ensures !IsControlFlow(f)
  {
    hide SignExtended, ZeroExtended;
  }

  /** What analyze_instruction says of a supported transfer. */
  lemma ClassifyTransfer(c: int, w: Word)
    requires IsTransfer(Decode(FieldsOf(w)))
    ensures IsControlFlow(FieldsOf(w)) && AnalyzeInstruction(c, w).hasDelaySlot && !AnalyzeInstruction(c, w).isLikely
    ensures var cf := AnalyzeInstruction(c, w);
            match Decode(FieldsOf(w))
            case BranchIf(_, _, _, off, links) =>
              && cf.kind == CfKind.Branch && cf.target == Wrap(c + 4 + 4 * off)
              && (links <==> FieldsOf(w).op == 1 && (FieldsOf(w).rt == 0x10 || FieldsOf(w).rt == 0x11))
              && FieldsOf(w).rs == Decode(FieldsOf(w)).rs
            case Jump(index, links) =>
              && cf.kind == (if links then CfKind.JumpLink else CfKind.Jump)
              && cf.target == Wrap(Wrap(c + 4) / 0x1000_0000 * 0x1000_0000 + 4 * index)
            case JumpReg(rs) =>
              && cf.kind == (if rs == 31 then CfKind.Return else CfKind.JumpRegister)
              && rs == FieldsOf(w).rs
            case JumpLinkReg(rd, rs) => cf.kind == CfKind.JumpLinkReg && rd == FieldsOf(w).rd && rs == FieldsOf(w).rs
            case _ => false
  {
    hide FieldsOf, SignExtended, ZeroExtended, Wrap;
  }

  /** The address control goes to after the delay slot of the transfer at `c`. */
  function Destination(f: Fields, c: Word, cpu: Cpu): Word {
    var t := Transfer(Decode(f), c, cpu).1;
    if t.Some? then t.value else Wrap(c + 8)
  }

  lemma OneStep(img: Image, m: Machine, w: Word)
    requires img.ReadWord(m.pc) == Some(w)
    ensures RefRun(img, m, 1) == Some(StepWord(FieldsOf(w), m))
  {
    hide FieldsOf, StepWord, Image.ReadWord;
    var m1 := RefStep(img, m).value;
    assert RefRun(img, m1, 0) == Some(m1);
  }

  lemma StepTransfer(f: Fields, m: Machine)
    requires IsTransfer(Decode(f)) && m.npc == Wrap(m.pc + 4)
    ensures StepWord(f, m) == Machine(m.npc, Destination(f, m.pc, m.cpu), Transfer(Decode(f), m.pc, m.cpu).0)
  {
    hide Decode, Transfer, IsTransfer;
    WrapTwice(m.pc);
  }

  lemma WrapTwice(a: Word)
    ensures Wrap(Wrap(a + 4) + 4) == Wrap(a + 8)
  {
  }

  lemma StepPlain(f: Fields, m: Machine)
    requires IsPlain(f)
    ensures StepWord(f, m) == At(m.npc, Exec(f, m.cpu))
  {
    hide Decode, ExecInstr;
    PlainIsNoTransfer(f);
  }

  lemma PlainIsNoTransfer(f: Fields)
    requires IsPlain(f)
    ensures !IsTransfer(Decode(f))
  {
    hide Decode;
  }

  /** Between a transfer and its delay slot. */
  lemma TransferHalf(img: Image, c: Word, cpu: Cpu)
    requires GoodTransfer(img, c) && c + 8 < WORD_LIMIT
    ensures var f := FieldsOf(img.ReadWord(c).value);
            RefRun(img, At(c, cpu), 1) == Some(Machine(c + 4, Destination(f, c, cpu), Transfer(Decode(f), c, cpu).0))
  {
    hide FieldsOf, Decode, StepWord, Transfer, Destination, RefRun, Image.ReadWord, AnalyzeInstruction, GoodPlain,
         SlotKeeps;
    var w := img.ReadWord(c).value;
    GoodIsDecoded(img, c);
    StepTransfer(FieldsOf(w), At(c, cpu));
    OneStep(img, At(c, cpu), w);
  }

  lemma GoodIsDecoded(img: Image, c: int)
    requires GoodTransfer(img, c)
    ensures img.ReadWord(c).Some? && IsTransfer(Decode(FieldsOf(img.ReadWord(c).value)))
    ensures GoodPlain(img, c + 4)
  {
    hide FieldsOf, Decode, AnalyzeInstruction, GoodPlain, SlotKeeps, Image.ReadWord;
  }

  lemma GoodIsPlain(img: Image, x: int)
    requires GoodPlain(img, x)
    ensures img.ReadWord(x).Some? && IsPlain(FieldsOf(img.ReadWord(x).value))
  {
    hide FieldsOf, IsPlain, Translate.ClobbersZero, Image.ReadWord;
  }

  /** A transfer and its delay slot: link, slot, arrive. */
  lemma TransferRun(img: Image, c: Word, cpu: Cpu)
    requires GoodTransfer(img, c) && c + 8 < WORD_LIMIT
    ensures img.ReadWord(c + 4).Some?
    ensures var f := FieldsOf(img.ReadWord(c).value);
            var slot := FieldsOf(img.ReadWord(c + 4).value);
            RefRun(img, At(c, cpu), 2)
            == Some(At(Destination(f, c, cpu), Exec(slot, Transfer(Decode(f), c, cpu).0)))
  {
    hide FieldsOf, Decode, StepWord, Transfer, Destination, RefRun, Image.ReadWord, GoodTransfer, GoodPlain, IsPlain,
         Exec;
    GoodIsDecoded(img, c);
    var f := FieldsOf(img.ReadWord(c).value);
    var m1 := Machine(c + 4, Destination(f, c, cpu), Transfer(Decode(f), c, cpu).0);
    TransferHalf(img, c, cpu);
    GoodIsPlain(img, c + 4);
    var slot := img.ReadWord(c + 4).value;
    StepPlain(FieldsOf(slot), m1);
    OneStep(img, m1, slot);
    RefRunSplit(img, At(c, cpu), 1, 1);
  }

  lemma PlainRun(img: Image, x: Word, cpu: Cpu)
    requires GoodPlain(img, x) && x + 8 <= WORD_LIMIT
    ensures RefRun(img, At(x, cpu), 1) == Some(At(x + 4, Exec(FieldsOf(img.ReadWord(x).value), cpu)))
  {
    hide FieldsOf, Decode, ExecInstr, Transfer, Translate.ClobbersZero;
    var m1 := RefStep(img, At(x, cpu)).value;
    assert RefRun(img, m1, 0) == Some(m1);
  }
}
