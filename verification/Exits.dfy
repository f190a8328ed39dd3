/** The code emitted for the transfer that ends a block, kind by kind: it takes the host
    to where the reference machine stands after the transfer and its delay slot. */
module Exits {
  import opened Words
  import opened Isa
  import opened ControlFlow
  import opened JumpTables
  import opened Emit
  import opened Runtime
  import opened Labels
  import opened Reference
  import opened Preserve
  import Translate

  // ---- registers across the delay slot ----

  /** Registers after the link and the slot of transfer `i` at `x`. */
  function Settled(i: Instr, slot: Fields, x: Word, cpu: Cpu): Cpu {
    Isa.Exec(slot, Transfer(i, x, cpu).0)
  }

  /** The emitted code reads the jump register, and writes the link again, after the slot. */
  predicate Undisturbed(i: Instr, x: Word, cpu: Cpu, after: Cpu) {
    match i
    case BranchIf(_, _, _, _, links) => links ==> after.gpr[31] == Wrap(x + 8)
    case Jump(_, links) => links ==> after.gpr[31] == Wrap(x + 8)
    case JumpReg(rs) => after.gpr[rs] == cpu.gpr[rs]
    case JumpLinkReg(rd, rs) => after.gpr[rs] == cpu.gpr[rs] && (rd != 0 ==> after.gpr[rd] == Wrap(x + 8))
    case _ => true
  }

  lemma SlotDisturbsNothing(img: Image, x: Word, i: Instr, cpu: Cpu)
    requires GoodTransfer(img, x) && i == Decode(FieldsOf(img.ReadWord(x).value))
    ensures Undisturbed(i, x, cpu, Settled(i, FieldsOf(img.ReadWord(x + 4).value), x, cpu))
  {
    hide FieldsOf, Decode, AnalyzeInstruction, ExecInstr, Writes;
    var slot := Decode(FieldsOf(img.ReadWord(x + 4).value));
    var linked := Transfer(i, x, cpu).0;
    match i {
      case BranchIf(_, _, _, _, links) => if links { ExecFrame(slot, linked, 31); }
      case Jump(_, links) => if links { ExecFrame(slot, linked, 31); }
      case JumpReg(rs) => ExecFrame(slot, linked, rs);
      case JumpLinkReg(rd, rs) =>
        ExecFrame(slot, linked, rs);
        ExecFrame(slot, linked, rd);
      case _ =>
    }
  }

  // ---- labels that are live ----

  /** The block at `a` is emitted, and everything it leads to is. */
  ghost predicate LiveBlock(c: Context, live: set<int>, a: int) {
    && c.f.Valid() && IsLeader(c.img, c.f, a) && a in live
    && ClosedUnderEdges(c, live) && LabelsEmitted(c)
  }

  lemma LeaderIsLiveLabel(c: Context, live: set<int>, s: int)
    requires c.f.Valid() && IsLeader(c.img, c.f, s) && s in live
    ensures LiveLabel(c, live, s) && HomeOf(c, s) == s
  {
    hide IsLeader, ExtraLabel;
    LeaderBound(c.img, c.f, s);
    LeaderAligned(c.img, c.f, s);
  }

  lemma SuccessorIsLive(c: Context, live: set<int>, a: int, s: int)
    requires LiveBlock(c, live, a) && s in BlockAt(c.img, c.f, a).successors
    ensures LiveLabel(c, live, s) && IsLeader(c.img, c.f, s) && HomeOf(c, s) == s
  {
    hide IsLeader, BlockAt, TableTargets, ExtraLabel, ContainingBlock;
    SuccessorsExact(c.img, c.f, a, s);
    assert Edge(c, a, s);
    LeaderIsLiveLabel(c, live, s);
  }

  lemma {:induction false} CaseIsTarget(c: Context, t: Table, i: int, seen: set<int>, k: Case)
    requires k in CasesFrom(c, t, i, seen)
    ensures HasLabel(c.img, c.f, k.dest) && k.dest == RamToRom(c.img, k.value) && k.charge == MidBlockCharge(c, k.dest)
    ensures c.f.InRange(k.dest) ==> k.dest in TargetsFrom(c.img, c.f, t, i)
    decreases t.count - i
  {
    hide RamToRom, TableEntry, HasLabel, MidBlockCharge;
    var e := TableEntry(c.img, t, i);
    if e == None {
      CaseIsTarget(c, t, i + 1, seen, k);
    } else {
      var rom: int := RamToRom(c.img, e.value);
      if rom in seen || !HasLabel(c.img, c.f, rom) || k != Case(e.value, MidBlockCharge(c, rom), rom) {
        CaseIsTarget(c, t, i + 1, seen + {rom}, k);
      }
    }
  }

  lemma {:induction false} FoundCase(cases: seq<Case>, v: Word)
    ensures FindCase(cases, v).Some? ==> FindCase(cases, v).value in cases && FindCase(cases, v).value.value == v
  {
    if cases != [] && cases[0].value != v {
      FoundCase(cases[1..], v);
    }
  }

  lemma CaseIsLive(c: Context, live: set<int>, a: int, k: Case)
    requires LiveBlock(c, live, a)
    requires var t := TableOf(c.img, c.f, BlockAt(c.img, c.f, a).exit);
             t.Some? && k in CasesFrom(c, t.value, 0, {})
    ensures LiveLabel(c, live, k.dest) && k.charge == MidBlockCharge(c, k.dest)
  {
    hide IsLeader, BlockAt, TableOf, ExtraLabel, BlockStart, BlockEnd, CasesFrom, MidBlockCharge, RamToRom,
         TargetsFrom, EmittedAt;
    var exit := BlockAt(c.img, c.f, a).exit;
    var t := TableOf(c.img, c.f, exit).value;
    CaseIsTarget(c, t, 0, {}, k);
    if IsLeader(c.img, c.f, k.dest) {
      LeaderBound(c.img, c.f, k.dest);
      LeaderAligned(c.img, c.f, k.dest);
    }
    assert k.dest in TableTargets(c.img, c.f, exit);
    var s := HomeOf(c, k.dest);
    HomeContains(c, k.dest);
    assert Edge(c, a, s);
  }

  lemma HomeContains(c: Context, t: int)
    requires c.f.Valid() && c.f.InRange(t) && Aligned(t)
    ensures ContainingBlock(c, t) == Some(HomeOf(c, t))
    ensures IsLeader(c.img, c.f, HomeOf(c, t))
    ensures HomeOf(c, t) <= t <= BlockEnd(c.img, c.f, HomeOf(c, t))
  {
    hide IsLeader, BlockEnd, BlockStart;
    BlocksTile(c.img, c.f, t, HomeOf(c, t));
  }

  // ---- single statements ----

  lemma RunSetLink(r: Reg, v: Word, rest: seq<Stmt>, h: Host)
    requires h.cpu.gpr[r] == v
    ensures RunStmts([SetLink(r, v)] + rest, h) == RunStmts(rest, h)
  {
    hide RunStmts;
    RunCons(SetLink(r, v), rest, h);
    assert h.cpu.gpr[r := v] == h.cpu.gpr;
  }

  lemma RunSaveTarget(r: Reg, rest: seq<Stmt>, h: Host)
    ensures RunStmts([SaveTarget(r)] + rest, h) == RunStmts(rest, h.(saved := h.cpu.gpr[r]))
  {
    hide RunStmts;
    RunCons(SaveTarget(r), rest, h);
  }

  lemma RunGoto(a: int, rest: seq<Stmt>, h: Host)
    ensures RunStmts([Goto(a)] + rest, h) == Outcome(Jumped(a), rest, h)
  {
    hide RunStmts;
    RunCons(Goto(a), rest, h);
  }

  lemma RunIfSaved(taken: Arm, notTaken: Arm, rest: seq<Stmt>, h: Host)
    ensures RunStmts([IfSaved(taken, notTaken)] + rest, h) == TakeArm(if h.cond then taken else notTaken, rest, h)
  {
    hide RunStmts;
    RunCons(IfSaved(taken, notTaken), rest, h);
  }

  function SwitchOutcome(r: Reg, cases: seq<Case>, rest: seq<Stmt>, h: Host): Outcome {
    var k := FindCase(cases, h.cpu.gpr[r]);
    if k.Some? then TakeCase(k.value, rest, h) else Outcome(Returned, rest, SetPc(h, h.cpu.gpr[r]))
  }

  lemma RunSwitch(r: Reg, cases: seq<Case>, rest: seq<Stmt>, h: Host)
    ensures RunStmts([SwitchOn(r, cases)] + rest, h) == SwitchOutcome(r, cases, rest, h)
  {
    hide RunStmts;
    RunCons(SwitchOn(r, cases), rest, h);
  }

  predicate Publishes(s: Stmt, h: Host, d: Word) {
    match s
    case Publish(a) => a == d
    case PublishReg(r) => h.cpu.gpr[r] == d
    case PublishSaved => h.saved == d
    case _ => false
  }

  lemma RunPublish(s: Stmt, rest: seq<Stmt>, h: Host, d: Word)
    requires Publishes(s, h, d)
    ensures RunStmts([s] + rest, h) == Outcome(Returned, rest, SetPc(h, d))
  {
    hide RunStmts;
    RunCons(s, rest, h);
  }

  // ---- arriving ----

  lemma PublishArrives(c: Context, live: set<int>, rest: seq<Stmt>, h: Host, d: Word)
    requires Clean(h)
    ensures Left(c, live, Outcome(Returned, rest, SetPc(h, d)), At(d, h.cpu))
  {
    hide LiveLabel, ResumeText;
  }

  /** Leaving by an arm for address `d`: to its label, or out with `d` published. */
  lemma ArmArrives(c: Context, live: set<int>, a: int, d: Word, rest: seq<Stmt>, h: Host)
    requires LiveBlock(c, live, a) && Clean(h)
    requires IsLeader(c.img, c.f, d) ==> d in BlockAt(c.img, c.f, a).successors
    ensures Left(c, live, TakeArm(ArmTo(c, d), rest, h), At(d, h.cpu))
    ensures var o := TakeArm(ArmTo(c, d), rest, h); o.h.cycles == h.cycles + EntryCharge(c, o.event)
  {
    hide IsLeader, BlockAt, LiveBlock, LiveLabel;
    if IsLeader(c.img, c.f, d) {
      SuccessorIsLive(c, live, a, d);
    }
  }

  /** Leaving through a register: by the table's switch, or out with it published. */
  lemma SwitchArrives(c: Context, live: set<int>, a: int, rest: seq<Stmt>, h: Host)
    requires LiveBlock(c, live, a) && Clean(h) && CanonicalTable(c, a)
    requires BlockAt(c.img, c.f, a).exit.kind == CfKind.JumpRegister
    ensures var b := BlockAt(c.img, c.f, a);
            var o := RunStmts(JumpRegisterExit(c, b) + rest, h);
            && Left(c, live, o, At(h.cpu.gpr[FieldsOf(b.exit.word).rs], h.cpu))
            && o.h.cycles == h.cycles + EntryCharge(c, o.event)
  {
    hide IsLeader, BlockAt, LiveBlock, TableOf, CasesFrom, MidBlockCharge, FieldsOf, RunStmts, Left;
    var b := BlockAt(c.img, c.f, a);
    var r := FieldsOf(b.exit.word).rs;
    var v := h.cpu.gpr[r];
    var t := TableOf(c.img, c.f, b.exit);
    PublishArrives(c, live, rest, h, v);
    RunPublish(PublishReg(r), rest, h, v);
    if t.Some? {
      var cases := CasesFrom(c, t.value, 0, {});
      RunSwitch(r, cases, rest, h);
      FoundCase(cases, v);
      if FindCase(cases, v).Some? {
        CaseArrives(c, live, a, FindCase(cases, v).value, rest, h);
      }
    }
  }

  lemma CaseArrives(c: Context, live: set<int>, a: int, k: Case, rest: seq<Stmt>, h: Host)
    requires LiveBlock(c, live, a) && Clean(h) && CanonicalTable(c, a)
    requires var t := TableOf(c.img, c.f, BlockAt(c.img, c.f, a).exit);
             t.Some? && k in CasesFrom(c, t.value, 0, {})
    ensures Left(c, live, TakeCase(k, rest, h), At(k.value, h.cpu))
    ensures k.charge == MidBlockCharge(c, k.dest)
  {
    hide LiveBlock, LiveLabel, BlockAt, TableOf, CasesFrom, MidBlockCharge;
    CaseIsLive(c, live, a, k);
  }

  /** The two arms of a branch, whether or not both are blocks of the function. */
  lemma BranchArms(c: Context, a: int)
    requires var exit := BlockAt(c.img, c.f, a).exit;
             exit.kind == CfKind.Branch && exit.target != 0 && 0 <= exit.address && exit.address + 8 < WORD_LIMIT
    ensures var b := BlockAt(c.img, c.f, a);
            && (|b.successors| == 2 ==>
                 && ArmTo(c, b.exit.target) == GotoArm(b.successors[0])
                 && ArmTo(c, Wrap(b.exit.address + 8)) == GotoArm(b.successors[1]))
            && (IsLeader(c.img, c.f, b.exit.target) ==> b.exit.target in b.successors)
            && (IsLeader(c.img, c.f, b.exit.address + 8) ==> b.exit.address + 8 in b.successors)
  {
    hide IsLeader, BlockEnd, ExitOf, KeepLeaders;
    var b := BlockAt(c.img, c.f, a);
    KeepTwo(c.img, c.f, b.exit.target, b.exit.address + 8);
    assert NextAddresses(b.exit, b.end) == [b.exit.target, b.exit.address + 8];
  }

  lemma BranchArrives(c: Context, live: set<int>, a: int, rest: seq<Stmt>, h: Host)
    requires LiveBlock(c, live, a) && Clean(h)
    requires var exit := BlockAt(c.img, c.f, a).exit;
             && exit.kind == CfKind.Branch && exit.target != 0 && 0 <= exit.address && exit.address + 8 < WORD_LIMIT
             && CondSaved(c.img, exit)
             && (BranchLinks(FieldsOf(exit.word)) ==> h.cpu.gpr[31] == Wrap(exit.address + 8))
    ensures var b := BlockAt(c.img, c.f, a);
            var o := RunStmts(BranchExit(c, b) + rest, h);
            && Left(c, live, o, At(if h.cond then b.exit.target else Wrap(b.exit.address + 8), h.cpu))
            && o.h.cycles == h.cycles + EntryCharge(c, o.event)
  {
    hide IsLeader, BlockAt, LiveBlock, LiveLabel, FieldsOf, CondSaved, BranchLinks, Left, Clean, TakeArm, ArmTo,
         RunStmts;
    var b := BlockAt(c.img, c.f, a);
    BranchArms(c, a);
    var taken, notTaken := ArmTo(c, b.exit.target), ArmTo(c, Wrap(b.exit.address + 8));
    var code := BranchExit(c, b);
    var last := [IfSaved(taken, notTaken)];
    RunIfSaved(taken, notTaken, rest, h);
    if BranchLinks(FieldsOf(b.exit.word)) {
      RunSetLink(31, Wrap(b.exit.address + 8), last + rest, h);
      assert code + rest == [SetLink(31, Wrap(b.exit.address + 8))] + (last + rest);
    } else {
      assert code + rest == last + rest;
    }
    ArmArrives(c, live, a, if h.cond then b.exit.target else Wrap(b.exit.address + 8), rest, h);
  }

  lemma JumpArrives(c: Context, live: set<int>, a: int, rest: seq<Stmt>, h: Host)
    requires LiveBlock(c, live, a) && Clean(h)
    requires var exit := BlockAt(c.img, c.f, a).exit; exit.kind == CfKind.Jump && exit.target != 0
    ensures var b := BlockAt(c.img, c.f, a);
            var o := RunStmts(JumpExit(b) + rest, h);
            Left(c, live, o, At(b.exit.target, h.cpu)) && o.h.cycles == h.cycles + EntryCharge(c, o.event)
  {
    hide IsLeader, BlockAt, LiveBlock, LiveLabel, Clean, Left, RunStmts;
    var b := BlockAt(c.img, c.f, a);
    JumpSuccessor(c, a);
    if IsLeader(c.img, c.f, b.exit.target) {
      RunGoto(b.exit.target, rest, h);
    } else {
      RunPublish(Publish(b.exit.target), rest, h, b.exit.target);
    }
    ArmArrives(c, live, a, b.exit.target, rest, h);
  }

  lemma JumpSuccessor(c: Context, a: int)
    requires var exit := BlockAt(c.img, c.f, a).exit; exit.kind == CfKind.Jump && exit.target != 0
    ensures var b := BlockAt(c.img, c.f, a);
            b.successors == if IsLeader(c.img, c.f, b.exit.target) then [b.exit.target as int] else []
  {
    hide IsLeader, BlockEnd, ExitOf, KeepLeaders;
    var b := BlockAt(c.img, c.f, a);
    KeepTwo(c.img, c.f, 0, b.exit.target);
  }

  /** A call: link again, publish the callee. */
  lemma CallArrives(c: Context, live: set<int>, b: BasicBlock, rest: seq<Stmt>, h: Host)
    requires b.exit.kind == CfKind.JumpLink && Clean(h) && h.cpu.gpr[31] == Wrap(b.exit.address + 8)
    ensures var o := RunStmts(TransferExit(c, b) + rest, h);
            Left(c, live, o, At(b.exit.target, h.cpu)) && o.h.cycles == h.cycles + EntryCharge(c, o.event)
  {
    hide Left, RunStmts, Clean;
    var v := Wrap(b.exit.address + 8);
    assert TransferExit(c, b) + rest == [SetLink(31, v)] + ([Publish(b.exit.target)] + rest);
    RunSetLink(31, v, [Publish(b.exit.target)] + rest, h);
    RunPublish(Publish(b.exit.target), rest, h, b.exit.target);
    PublishArrives(c, live, rest, h, b.exit.target);
  }

  /** A call through a register: the target is saved before the link is written again. */
  lemma CallRegArrives(c: Context, live: set<int>, b: BasicBlock, f: Fields, rest: seq<Stmt>, h: Host)
    requires b.exit.kind == CfKind.JumpLinkReg && f == FieldsOf(b.exit.word) && Clean(h)
    requires f.rd != 0 ==> h.cpu.gpr[f.rd] == Wrap(b.exit.address + 8)
    ensures var o := RunStmts(JumpLinkRegExit(b) + rest, h);
            Left(c, live, o, At(h.cpu.gpr[f.rs], h.cpu)) && o.h.cycles == h.cycles + EntryCharge(c, o.event)
  {
    hide Left, RunStmts, FieldsOf;
    var h1 := h.(saved := h.cpu.gpr[f.rs]);
    var last := [PublishSaved] + rest;
    var v := Wrap(b.exit.address + 8);
    RunPublish(PublishSaved, rest, h1, h1.saved);
    PublishArrives(c, live, rest, h1, h1.saved);
    if f.rd != 0 {
      assert JumpLinkRegExit(b) + rest == [SaveTarget(f.rs)] + ([SetLink(f.rd, v)] + last);
      RunSaveTarget(f.rs, [SetLink(f.rd, v)] + last, h);
      RunSetLink(f.rd, v, last, h1);
    } else {
      assert JumpLinkRegExit(b) + rest == [SaveTarget(f.rs)] + last;
      RunSaveTarget(f.rs, last, h);
    }
  }

  lemma ReturnArrives(c: Context, live: set<int>, b: BasicBlock, rest: seq<Stmt>, h: Host)
    requires b.exit.kind == CfKind.Return && Clean(h)
    ensures var o := RunStmts(TransferExit(c, b) + rest, h);
            Left(c, live, o, At(h.cpu.gpr[31], h.cpu)) && o.h.cycles == h.cycles + EntryCharge(c, o.event)
  {
    hide Left, RunStmts, Clean;
    RunPublish(PublishReg(31), rest, h, h.cpu.gpr[31]);
    PublishArrives(c, live, rest, h, h.cpu.gpr[31]);
  }

  // ---- where the transfer goes ----

  /** `d` in terms of what the analyser recorded, and what the emitted code consults. */
  predicate GoesTo(exit: ControlFlowInstr, f: Fields, cond: bool, cpu: Cpu, d: Word) {
    match exit.kind
    case Branch => exit.target != 0 && d == if cond then exit.target else Wrap(exit.address + 8)
    case Jump => exit.target != 0 && d == exit.target
    case JumpLink => d == exit.target
    case Return => d == cpu.gpr[31]
    case JumpRegister => d == cpu.gpr[f.rs]
    case JumpLinkReg => d == cpu.gpr[f.rs]
    case NoTransfer => false
  }

  lemma BranchLinkKeepsCondition(f: Fields, x: Word, cpu: Cpu)
    requires cpu.gpr[0] == 0
    requires var i := Decode(f); i.BranchIf? && (i.links ==> i.rs != 31 && i.rt == 0)
    ensures var i := Decode(f);
            Translate.CondOf(f, Transfer(i, x, cpu).0) == Holds(i.cond, cpu.gpr[i.rs], cpu.gpr[i.rt])
  {
    hide FieldsOf, Decode, Translate.CondOf, Holds;
    Translate.ConditionCorrect(f, Transfer(Decode(f), x, cpu).0);
  }

  lemma LinksThroughZero(f: Fields)
    requires Decode(f).BranchIf? && Decode(f).links
    ensures Decode(f).rt == 0
  {
  }

  lemma TransferGoesTo(img: Image, exit: ControlFlowInstr, cpu: Cpu)
    requires AtTransfer(img, exit) && cpu.gpr[0] == 0
    ensures var f := FieldsOf(exit.word);
            GoesTo(exit, f, Translate.CondOf(f, Transfer(Decode(f), exit.address, cpu).0), cpu, Destination(f,
              exit.address, cpu))
  {
    hide FieldsOf, Decode, AnalyzeInstruction, GoodPlain, Translate.CondOf, Holds, SlotKeeps;
    var f := FieldsOf(exit.word);
    var i := Decode(f);
    GoodIsTransfer(img, exit.address);
    ClassifyTransfer(exit.address, img.ReadWord(exit.address).value);
    ExitWord(img, exit);
    if i.BranchIf? {
      if i.links { LinksThroughZero(f); }
      BranchLinkKeepsCondition(f, exit.address, cpu);
    }
  }

  // ---- the whole exit ----

  /** Host registers, condition and all, once the link and the slot are behind. */
  function SettledHost(exit: ControlFlowInstr, slot: Fields, h: Host): Host
    requires 0 <= exit.address < WORD_LIMIT
  {
    var f := FieldsOf(exit.word);
    var linked := Transfer(Decode(f), exit.address, h.cpu).0;
    h.(cpu := Isa.Exec(slot, linked), cond := if exit.kind == CfKind.Branch then Translate.CondOf(f, linked)
      else h.cond)
  }

  /** The delay slot is no division that overflows, on the registers the transfer leaves. */
  predicate SlotDefined(img: Image, exit: ControlFlowInstr, h: Host) {
    && img.ReadWord(exit.address + 4).Some? && 0 <= exit.address < WORD_LIMIT
    && !Translate.DivOverflows(FieldsOf(img.ReadWord(exit.address + 4).value),
                               Transfer(Decode(FieldsOf(exit.word)), exit.address, h.cpu).0)
  }

  lemma SlotIsDefined(img: Image, exit: ControlFlowInstr, h: Host)
    requires AtTransfer(img, exit) && 0 <= exit.address < WORD_LIMIT && NoOverflow(img, At(exit.address, h.cpu), 2)
    ensures SlotDefined(img, exit, h)
  {
    hide FieldsOf, Decode, Transfer, RefRun, Translate.DivOverflows, NoOverflow, GoodTransfer, AnalyzeInstruction;
    ExitWord(img, exit);
    TransferHalf(img, exit.address, h.cpu);
    NoOverflowLater(img, At(exit.address, h.cpu), 1, 1);
    NoOverflowNow(img, RefRun(img, At(exit.address, h.cpu), 1).value, 1);
  }

  lemma RunLinkAndSlot(img: Image, exit: ControlFlowInstr, rest: seq<Stmt>, h: Host)
    requires AtTransfer(img, exit) && h.cpu.gpr[0] == 0 && SlotDefined(img, exit, h)
    ensures var h' := SettledHost(exit, FieldsOf(img.ReadWord(exit.address + 4).value), h);
            RunStmts(LinkBefore(exit) + DelaySlot(img, exit) + rest, h) == RunStmts(rest, h') && h'.cpu.gpr[0] == 0
    ensures CondSaved(img, exit) <==> exit.kind == CfKind.Branch
  {
    hide FieldsOf, Decode, AtTransfer, Transfer, LinkBefore, DelaySlot, RunStmts, Translate.CondOf, ExecInstr,
         CondSaved, Translate.DivOverflows;
    ExitWord(img, exit);
    var i := Decode(FieldsOf(exit.word));
    var linked := h.(cpu := Transfer(i, exit.address, h.cpu).0);
    assert LinkBefore(exit) + DelaySlot(img, exit) + rest == LinkBefore(exit) + (DelaySlot(img, exit) + rest);
    RunLinkBefore(img, exit, i, DelaySlot(img, exit) + rest, h);
    LinkKeepsZero(i, exit.address, h.cpu);
    RunSlot(img, exit, rest, linked);
  }

  lemma LinkKeepsZero(i: Instr, x: Word, cpu: Cpu)
    requires cpu.gpr[0] == 0
    ensures Transfer(i, x, cpu).0.gpr[0] == 0
  {
  }

  /** `Undisturbed`, by the recorded kind. */
  predicate Kept(exit: ControlFlowInstr, f: Fields, cpu: Cpu, after: Cpu) {
    var link := Wrap(exit.address + 8);
    match exit.kind
    case Branch => BranchLinks(f) ==> after.gpr[31] == link
    case JumpLink => after.gpr[31] == link
    case Return => after.gpr[31] == cpu.gpr[31]
    case JumpRegister => after.gpr[f.rs] == cpu.gpr[f.rs]
    case JumpLinkReg => after.gpr[f.rs] == cpu.gpr[f.rs] && (f.rd != 0 ==> after.gpr[f.rd] == link)
    case _ => true
  }

  lemma SettledKeeps(img: Image, exit: ControlFlowInstr, h: Host)
    requires AtTransfer(img, exit)
    ensures Kept(exit, FieldsOf(exit.word), h.cpu, SettledHost(exit, FieldsOf(img.ReadWord(exit.address + 4).value),
            h).cpu)
  {
    hide FieldsOf, Decode, AnalyzeInstruction, GoodPlain, Translate.CondOf, SlotKeeps, ExecInstr, Transfer,
         Translate.ClobbersZero;
    var f := FieldsOf(exit.word);
    GoodIsTransfer(img, exit.address);
    ClassifyTransfer(exit.address, img.ReadWord(exit.address).value);
    ExitWord(img, exit);
    SlotDisturbsNothing(img, exit.address, Decode(f), h.cpu);
  }

  /** After link and slot, the rest of the exit takes the host to address `d`. */
  lemma TransferExitArrives(c: Context, live: set<int>, a: int, rest: seq<Stmt>, cpu: Cpu, h: Host, d: Word)
    requires LiveBlock(c, live, a) && Clean(h) && CanonicalTable(c, a)
    requires var exit := BlockAt(c.img, c.f, a).exit;
             && 0 <= exit.address && exit.address + 8 < WORD_LIMIT
             && (CondSaved(c.img, exit) <==> exit.kind == CfKind.Branch)
             && Kept(exit, FieldsOf(exit.word), cpu, h.cpu)
    requires var exit := BlockAt(c.img, c.f, a).exit; GoesTo(exit, FieldsOf(exit.word), h.cond, cpu, d)
    ensures var o := RunStmts(TransferExit(c, BlockAt(c.img, c.f, a)) + rest, h);
            && Left(c, live, o, At(d, h.cpu))
            && o.h.cycles == h.cycles + EntryCharge(c, o.event)
  {
    hide LiveBlock, Clean, CanonicalTable, BlockAt, Left, RunStmts, FieldsOf, CondSaved, BranchLinks, BranchExit,
         JumpExit, JumpRegisterExit, JumpLinkRegExit, MidBlockCharge;
    var b := BlockAt(c.img, c.f, a);
    match b.exit.kind {
      case Branch => BranchArrives(c, live, a, rest, h);
      case Jump => JumpArrives(c, live, a, rest, h);
      case JumpLink => CallArrives(c, live, b, rest, h);
      case Return => ReturnArrives(c, live, b, rest, h);
      case JumpRegister => SwitchArrives(c, live, a, rest, h);
      case JumpLinkReg => CallRegArrives(c, live, b, FieldsOf(b.exit.word), rest, h);
      case NoTransfer =>
    }
  }

  lemma SettledGoesTo(img: Image, exit: ControlFlowInstr, slot: Fields, h: Host)
    requires AtTransfer(img, exit) && h.cpu.gpr[0] == 0
    ensures 0 <= exit.address < WORD_LIMIT
    ensures GoesTo(exit, FieldsOf(exit.word), SettledHost(exit, slot, h).cond, h.cpu, Destination(FieldsOf(exit.word),
            exit.address, h.cpu))
  {
    hide FieldsOf, Decode, Transfer, AtTransfer, Translate.CondOf, Destination, ExecInstr;
    ExitWord(img, exit);
    TransferGoesTo(img, exit, h.cpu);
  }

  /** After link and slot, the rest of the exit arrives. */
  lemma SettledArrives(c: Context, live: set<int>, a: int, rest: seq<Stmt>, slot: Fields, h: Host, h': Host)
    requires LiveBlock(c, live, a) && Clean(h) && CanonicalTable(c, a)
    requires var exit := BlockAt(c.img, c.f, a).exit;
             && AtTransfer(c.img, exit) && (CondSaved(c.img, exit) <==> exit.kind == CfKind.Branch)
             && c.img.ReadWord(exit.address + 4).Some? && slot == FieldsOf(c.img.ReadWord(exit.address + 4).value)
             && 0 <= exit.address < WORD_LIMIT && h' == SettledHost(exit, slot, h) && h'.cpu.gpr[0] == 0
    ensures var b := BlockAt(c.img, c.f, a);
            var o := RunStmts(TransferExit(c, b) + rest, h');
            && 0 <= b.exit.address < WORD_LIMIT
            && Left(c, live, o, At(Destination(FieldsOf(b.exit.word), b.exit.address, h.cpu), h'.cpu))
            && o.h.cycles == h.cycles + EntryCharge(c, o.event)
  {
    hide LiveBlock, CanonicalTable, BlockAt, Left, RunStmts, FieldsOf, CondSaved, Decode, Transfer, TransferExit,
         ExecInstr, Translate.CondOf, EntryCharge, Kept, Destination, AtTransfer, GoesTo;
    var b := BlockAt(c.img, c.f, a);
    ExitWord(c.img, b.exit);
    SettledKeeps(c.img, b.exit, h);
    SettledGoesTo(c.img, b.exit, slot, h);
    TransferExitArrives(c, live, a, rest, h.cpu, h', Destination(FieldsOf(b.exit.word), b.exit.address, h.cpu));
  }

  /** The exit code does what the transfer and its delay slot do. */
  lemma ExitArrives(c: Context, live: set<int>, a: int, rest: seq<Stmt>, h: Host)
    requires LiveBlock(c, live, a) && Clean(h) && CanonicalTable(c, a)
    requires AtTransfer(c.img, BlockAt(c.img, c.f, a).exit) && 0 <= BlockAt(c.img, c.f, a).exit.address < WORD_LIMIT
    requires NoOverflow(c.img, At(BlockAt(c.img, c.f, a).exit.address, h.cpu), 2)
    ensures var b := BlockAt(c.img, c.f, a);
            var o := RunStmts(ExitCode(c, b) + rest, h);
            var m := RefRun(c.img, At(b.exit.address, h.cpu), 2);
            && m.Some? && Left(c, live, o, m.value)
            && o.h.cycles == h.cycles + EntryCharge(c, o.event)
  {
    hide LiveBlock, CanonicalTable, BlockAt, Left, RunStmts, FieldsOf, CondSaved, Decode, AnalyzeInstruction,
         GoodPlain, Transfer, LinkBefore, DelaySlot, TransferExit, ExecInstr, Translate.CondOf, EntryCharge,
         Destination, RefRun, GoodTransfer, AtTransfer, NoOverflow, SlotDefined;
    var b := BlockAt(c.img, c.f, a);
    ExitWord(c.img, b.exit);
    SlotIsDefined(c.img, b.exit, h);
    var slot := FieldsOf(c.img.ReadWord(b.exit.address + 4).value);
    var h' := SettledHost(b.exit, slot, h);
    assert ExitCode(c, b) + rest == LinkBefore(b.exit) + DelaySlot(c.img, b.exit) + (TransferExit(c, b) + rest);
    RunLinkAndSlot(c.img, b.exit, TransferExit(c, b) + rest, h);
    SettledArrives(c, live, a, rest, slot, h, h');
    TransferRun(c.img, b.exit.address, h.cpu);
  }

  // ---- any jump table ----

  /** Entry `j` is the first, from `i` on, to reach the translated address of `v`. */
  predicate FirstEntry(img: Image, t: Table, i: int, j: int, v: Word) {
    && i <= j < t.count && TableEntry(img, t, j) == Some(v)
    && forall k :: i <= k < j && TableEntry(img, t, k).Some? ==>
         RamToRom(img, TableEntry(img, t, k).value) != RamToRom(img, v)
  }

  ghost predicate HasFirstEntry(img: Image, t: Table, i: int, v: Word) {
    exists j :: FirstEntry(img, t, i, j, v)
  }

  lemma {:induction false} CaseIffFirstEntry(c: Context, t: Table, i: int, seen: set<int>, v: Word)
    ensures FindCase(CasesFrom(c, t, i, seen), v).Some?
            <==> RamToRom(c.img, v) !in seen && HasLabel(c.img, c.f, RamToRom(c.img, v))
                 && HasFirstEntry(c.img, t, i, v)
    decreases t.count - i
  {
    hide RamToRom, TableEntry, HasLabel, MidBlockCharge;
    if i < t.count {
      var e := TableEntry(c.img, t, i);
      var rom := RamToRom(c.img, v);
      var seen' := if e.Some? then seen + {RamToRom(c.img, e.value) as int} else seen;
      CaseIffFirstEntry(c, t, i + 1, seen', v);
      FirstEntryLater(c.img, t, i, v);
      var cases := CasesFrom(c, t, i, seen);
      var later := CasesFrom(c, t, i + 1, seen');
      if e.Some? && RamToRom(c.img, e.value) !in seen && HasLabel(c.img, c.f, RamToRom(c.img, e.value)) {
        assert cases[1..] == later;
      } else {
        assert cases == later;
      }
    }
  }

  lemma FirstEntryLater(img: Image, t: Table, i: int, v: Word)
    requires i < t.count
    ensures HasFirstEntry(img, t, i, v)
            <==> var e := TableEntry(img, t, i);
                 e == Some(v)
                 || ((e.Some? ==> RamToRom(img, e.value) != RamToRom(img, v)) && HasFirstEntry(img, t, i + 1, v))
  {
    hide RamToRom, TableEntry;
    var e := TableEntry(img, t, i);
    if e == Some(v) {
      assert FirstEntry(img, t, i, i, v);
    } else {
      if HasFirstEntry(img, t, i, v) {
        var j :| FirstEntry(img, t, i, j, v);
        assert FirstEntry(img, t, i + 1, j, v);
      }
      if HasFirstEntry(img, t, i + 1, v) && (e.Some? ==> RamToRom(img, e.value) != RamToRom(img, v)) {
        var j :| FirstEntry(img, t, i + 1, j, v);
        assert FirstEntry(img, t, i, j, v);
      }
    }
  }

  /** Whatever table the scan recognises, a register jump goes to the label of the address
      that stands for the register, or publishes the register; it does the former exactly
      when the register is the first table entry for a labelled address. */
  lemma SwitchTransparent(c: Context, b: BasicBlock, rest: seq<Stmt>, h: Host)
    requires b.exit.kind == CfKind.JumpRegister
    ensures var v := h.cpu.gpr[FieldsOf(b.exit.word).rs];
            var o := RunStmts(JumpRegisterExit(c, b) + rest, h);
            var t := TableOf(c.img, c.f, b.exit);
            if t.Some? && HasLabel(c.img, c.f, RamToRom(c.img, v)) && HasFirstEntry(c.img, t.value, 0, v) then
              && o.event == Jumped(RamToRom(c.img, v))
              && o.h == h.(cycles := h.cycles + MidBlockCharge(c, RamToRom(c.img, v)))
            else o.event == Returned && o.h == SetPc(h, v)
  {
    hide TableOf, CasesFrom, MidBlockCharge, FieldsOf, RunStmts, HasLabel, RamToRom, HasFirstEntry;
    var r := FieldsOf(b.exit.word).rs;
    var v := h.cpu.gpr[r];
    var t := TableOf(c.img, c.f, b.exit);
    RunPublish(PublishReg(r), rest, h, v);
    if t.Some? {
      var cases := CasesFrom(c, t.value, 0, {});
      RunSwitch(r, cases, rest, h);
      FoundCase(cases, v);
      CaseIffFirstEntry(c, t.value, 0, {}, v);
      if FindCase(cases, v).Some? {
        CaseIsTarget(c, t.value, 0, {}, FindCase(cases, v).value);
      }
    }
  }
}
