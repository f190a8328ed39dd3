/** Running the code of a block does what the reference machine does between the block's
    edges, and charges a cycle for each instruction. */
module Preserve {
  import opened Words
  import opened Isa
  import opened ControlFlow
  import opened JumpTables
  import opened Emit
  import opened Runtime
  import opened Labels
  import opened Reference
  import Translate

  // ---- conditions on a block ----

  /** Every instruction of the block is one the emitter handles. */
  predicate GoodInstruction(img: Image, x: int) {
    if TransferAt(img, x) then GoodTransfer(img, x) else GoodPlain(img, x)
  }

  ghost predicate GoodCode(c: Context, a: int) {
    forall x :: a <= x <= BlockEnd(c.img, c.f, a) && Aligned(x) ==> GoodInstruction(c.img, x)
  }

  /** Table entries with a label are the addresses that run: the recompile-time remapping
      leaves them alone. */
  ghost predicate CanonicalTable(c: Context, a: int) {
    var t := TableOf(c.img, c.f, BlockAt(c.img, c.f, a).exit);
    t.Some? ==> forall k :: k in CasesFrom(c, t.value, 0, {}) ==> k.value == k.dest
  }

  ghost predicate GoodBlock(c: Context, a: int) {
    GoodCode(c, a) && CanonicalTable(c, a)
  }

  /** The mid-block labels a table asks for are emitted. */
  ghost predicate LabelsEmitted(c: Context) {
    forall t :: ExtraLabel(c.img, c.f, t) ==>
      c.f.InRange(t) && Aligned(t) && EmittedAt(c.img, BlockAt(c.img, c.f, BlockStart(c.img, c.f, t)), t)
  }

  // ---- where a run stands after a block ----

  /** The block that holds label `t`. */
  function HomeOf(c: Context, t: int): int {
    BlockStart(c.img, c.f, t)
  }

  ghost predicate LiveLabel(c: Context, live: set<int>, t: int) {
    HasLabel(c.img, c.f, t) && c.f.InRange(t) && Aligned(t) && HomeOf(c, t) in live
  }

  /** The code behind label `t` to the end of the function's text. */
  function ResumeText(c: Context, live: set<int>, tail: seq<Stmt>, t: int): seq<Stmt> {
    var b := BlockAt(c.img, c.f, HomeOf(c, t));
    ResumeCode(c, b, t) + BodyFrom(c, live, b.end + 4) + tail
  }

  /** Between events `cpu->pc` is 0 and register 0 is 0. */
  predicate Clean(h: Host) {
    h.pc == 0 && h.cpu.gpr[0] == 0
  }

  /** A jump or a return took the host where the reference machine stands, with the same
      registers and memory. */
  ghost predicate Left(c: Context, live: set<int>, o: Outcome, m: Machine) {
    && o.h.cpu.gpr[0] == 0
    && match o.event
       case Jumped(t) => Clean(o.h) && LiveLabel(c, live, t) && m == At(t, o.h.cpu)
       case Returned => m == At(o.h.pc, o.h.cpu)
       case _ => false
  }

  /** The same for every event: a label reached from above stands in front of its code, and
      only the function behind this one is called. */
  ghost predicate Arrived(c: Context, live: set<int>, tail: seq<Stmt>, o: Outcome, m: Machine) {
    match o.event
    case Reached(t) =>
      Clean(o.h) && LiveLabel(c, live, t) && m == At(t, o.h.cpu) && o.rest == ResumeText(c, live, tail, t)
    case Called(t) =>
      && Clean(o.h) && t == c.f.end && t as int in c.known && m == At(t, o.h.cpu)
      && o.rest != [] && o.rest[0] == ReturnStmt
    case _ => Left(c, live, o, m)
  }

  /** An emitted block runs up to the end of the function without a transfer. */
  ghost predicate EndsOpen(c: Context, live: set<int>) {
    exists a :: a in live && IsLeader(c.img, c.f, a) && BlockAt(c.img, c.f, a).exit.kind == CfKind.NoTransfer
                && BlockAt(c.img, c.f, a).end + 4 == c.f.end
  }

  /** No function starts where this one ends, and its last block ran into nothing: the emitted
      function returned with `cpu->pc` clear, the reference machine goes on behind the end. */
  ghost predicate FellOff(c: Context, live: set<int>, o: Outcome, m: Machine) {
    EndsOpen(c, live) && c.f.end as int !in c.known && o.event == Returned && Clean(o.h) && m == At(c.f.end, o.h.cpu)
  }

  ghost predicate Landed(c: Context, live: set<int>, tail: seq<Stmt>, o: Outcome, m: Machine) {
    Arrived(c, live, tail, o, m) || FellOff(c, live, o, m)
  }

  /** A unit calls on at its end only where a function starts. */
  predicate TailFits(c: Context, tail: seq<Stmt>) {
    c.f.end as int !in c.known ==> tail == []
  }

  /** What entering at label `t` has charged: a jump-table case pays for the rest of the
      block it lands in; leaders charge behind their label. */
  function EntryCharge(c: Context, e: Event): nat {
    if e.Jumped? then MidBlockCharge(c, e.dest) else 0
  }

  // ---- one plain instruction ----

  lemma PlainStep(c: Context, b: BasicBlock, x: Word, rest: seq<Stmt>, h: Host)
    requires GoodPlain(c.img, x) && x + 8 <= WORD_LIMIT && h.cpu.gpr[0] == 0
    requires !Translate.DivOverflows(FieldsOf(c.img.ReadWord(x).value), h.cpu)
    ensures var w := c.img.ReadWord(x).value;
            var h' := h.(cpu := Exec(FieldsOf(w), h.cpu));
            && RunStmts(InstructionCode(c, b, x, w) + rest, h) == RunStmts(rest, h')
            && RefRun(c.img, At(x, h.cpu), 1) == Some(At(x + 4, h'.cpu))
            && h'.cpu.gpr[0] == 0
  {
    hide FieldsOf, ExecInstr, Translate.Run, Translate.TranslateInstruction, ExitCode, Translate.ClobbersZero, RefRun,
         Decode, Translate.DivOverflows;
    var w := c.img.ReadWord(x).value;
    var f := FieldsOf(w);
    PlainIsNotControlFlow(f);
    Translate.TranslationCorrect(f, h.cpu);
    PlainRun(c.img, x, h.cpu);
    var code := InstructionCode(c, b, x, w) + rest;
    assert code[0] == Perform(Translate.TranslateInstruction(f)) && code[1..] == rest;
  }

  // ---- a transfer and its delay slot ----

  predicate AtTransfer(img: Image, exit: ControlFlowInstr) {
    && 0 <= exit.address && exit.address + 8 < WORD_LIMIT
    && GoodTransfer(img, exit.address)
    && exit == AnalyzeInstruction(exit.address, img.ReadWord(exit.address).value)
  }

  lemma GoodIsTransfer(img: Image, x: int)
    requires GoodTransfer(img, x)
    ensures IsTransfer(Decode(FieldsOf(img.ReadWord(x).value)))
  {
    hide FieldsOf, Decode, AnalyzeInstruction, GoodPlain;
  }

  /** Executing `link` takes `cpu` to `linked`. */
  predicate LinkEffect(link: seq<Stmt>, cpu: Cpu, linked: Cpu) {
    if |link| == 1 && link[0].SetLink? then linked == cpu.(gpr := cpu.gpr[link[0].r := link[0].v])
    else link == [] && linked == cpu
  }

  /** The link written before the slot is the architectural one. */
  lemma LinkIsArchitectural(img: Image, exit: ControlFlowInstr, i: Instr, cpu: Cpu)
    requires AtTransfer(img, exit) && i == Decode(FieldsOf(exit.word))
    ensures LinkEffect(LinkBefore(exit), cpu, Transfer(i, exit.address, cpu).0)
  {
    hide FieldsOf, Decode, AnalyzeInstruction, GoodPlain;
    GoodIsTransfer(img, exit.address);
    ClassifyTransfer(exit.address, img.ReadWord(exit.address).value);
    ExitWord(img, exit);
  }

  lemma RunLinkBefore(img: Image, exit: ControlFlowInstr, i: Instr, rest: seq<Stmt>, h: Host)
    requires AtTransfer(img, exit) && i == Decode(FieldsOf(exit.word))
    ensures RunStmts(LinkBefore(exit) + rest, h)
            == RunStmts(rest, h.(cpu := Transfer(i, exit.address, h.cpu).0))
  {
    hide FieldsOf, Decode, AtTransfer, Transfer, LinkBefore;
    LinkIsArchitectural(img, exit, i, h.cpu);
    var link := LinkBefore(exit);
    if link == [] {
      assert link + rest == rest;
    } else {
      assert (link + rest)[0] == link[0] && (link + rest)[1..] == rest;
    }
  }

  lemma ExitWord(img: Image, exit: ControlFlowInstr)
    requires AtTransfer(img, exit)
    ensures 0 <= exit.address && exit.address + 8 < WORD_LIMIT && GoodTransfer(img, exit.address)
    ensures img.ReadWord(exit.address) == Some(exit.word) && img.ReadWord(exit.address + 4).Some?
  {
    hide FieldsOf, Decode;
  }

  lemma RunSlot(img: Image, exit: ControlFlowInstr, rest: seq<Stmt>, h: Host)
    requires AtTransfer(img, exit) && h.cpu.gpr[0] == 0 && img.ReadWord(exit.address + 4).Some?
    requires !Translate.DivOverflows(FieldsOf(img.ReadWord(exit.address + 4).value), h.cpu)
    ensures var f := FieldsOf(exit.word);
            var slot := FieldsOf(img.ReadWord(exit.address + 4).value);
            RunStmts(DelaySlot(img, exit) + rest, h)
            == RunStmts(rest, h.(cpu := Isa.Exec(slot, h.cpu),
                                 cond := if exit.kind == CfKind.Branch then Translate.CondOf(f, h.cpu) else h.cond))
    ensures Isa.Exec(FieldsOf(img.ReadWord(exit.address + 4).value), h.cpu).gpr[0] == 0
    ensures CondSaved(img, exit) <==> exit.kind == CfKind.Branch
  {
    hide FieldsOf, Decode, AnalyzeInstruction, ExecInstr, Translate.Run, Translate.TranslateInstruction,
         Translate.ClobbersZero, Translate.CondOf, Translate.DivOverflows;
    var w := img.ReadWord(exit.address).value;
    var slot := FieldsOf(img.ReadWord(exit.address + 4).value);
    GoodIsTransfer(img, exit.address);
    ClassifyTransfer(exit.address, w);
    Translate.TranslationCorrect(slot, h.cpu);
    var s := Translate.TranslateInstruction(slot);
    var code := DelaySlot(img, exit);
    if exit.kind == CfKind.Branch {
      var f := FieldsOf(exit.word);
      assert code == [SaveCond(f), Perform(s)];
      assert (code + rest)[0] == SaveCond(f) && (code + rest)[1..] == [Perform(s)] + rest;
      assert ([Perform(s)] + rest)[1..] == rest;
    } else {
      assert code == [Perform(s)];
      assert (code + rest)[0] == Perform(s) && (code + rest)[1..] == rest;
    }
  }
}
