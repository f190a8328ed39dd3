/** Small images on which the emitted code does not do what one would hope: concrete inputs
    for the conditions of the run theorems. */
module Examples {
  import opened Words
  import opened WordImages
  import opened Isa
  import opened ControlFlow
  import opened JumpTables
  import opened Emit
  import opened Runtime
  import opened Labels
  import opened Reference
  import opened Preserve
  import opened Exits
  import opened BlockRun
  import opened Generate
  import opened Routing
  import opened StackDepth
  import opened WholeRun
  import opened OpenEnds
  import Translate

  // ---- instruction words ----

  lemma NopWord()
    ensures FieldsOf(0) == Fields(0, 0, 0, 0, 0, 0, 0, 0, 0)
  {
  }

  lemma ReturnWord()
    ensures FieldsOf(0x03E0_0008) == Fields(0, 31, 0, 0, 0, 8, 8, 8, 0x03E0_0008)
  {
  }

  lemma JumpWord()
    ensures FieldsOf(0x00A0_0008) == Fields(0, 5, 0, 0, 0, 8, 8, 8, 0x00A0_0008)
  {
  }

  lemma BranchWord()
    ensures FieldsOf(0x1000_0000) == Fields(4, 0, 0, 0, 0, 0, 0, 0, 0)
  {
  }

  lemma BoundWord()
    ensures FieldsOf(0x2C81_0001) == Fields(0x0B, 4, 1, 0, 0, 1, 1, 1, 0x0081_0001)
  {
    assert 0x2C81_0001 / 0x400_0000 == 0xB && 0x2C81_0001 / 0x20_0000 % 32 == 4 && 0x2C81_0001 / 0x1_0000 % 32 == 1;
    assert 0x2C81_0001 / 0x800 % 32 == 0 && 0x2C81_0001 / 0x40 % 32 == 0 && 0x2C81_0001 % 64 == 1;
  }

  lemma UpperWord()
    ensures FieldsOf(0x3C02_0000) == Fields(0x0F, 0, 2, 0, 0, 0, 0, 0, 0x0002_0000)
  {
    assert 0x3C02_0000 / 0x400_0000 == 0xF && 0x3C02_0000 / 0x20_0000 % 32 == 0 && 0x3C02_0000 / 0x1_0000 % 32 == 2;
    assert 0x3C02_0000 / 0x800 % 32 == 0 && 0x3C02_0000 / 0x40 % 32 == 0 && 0x3C02_0000 % 64 == 0;
  }

  lemma LowerWord()
    ensures FieldsOf(0x2442_1034) == Fields(0x09, 2, 2, 2, 0, 0x34, 0x1034, 0x1034, 0x0042_1034)
  {
    assert 0x2442_1034 / 0x400_0000 == 9 && 0x2442_1034 / 0x20_0000 % 32 == 2 && 0x2442_1034 / 0x1_0000 % 32 == 2;
    assert 0x2442_1034 / 0x800 % 32 == 2 && 0x2442_1034 / 0x40 % 32 == 0 && 0x2442_1034 % 64 == 0x34;
  }

  lemma SumWord()
    ensures FieldsOf(0x0044_1821) == Fields(0, 2, 4, 3, 0, 0x21, 0x1821, 0x1821, 0x0044_1821)
  {
    assert 0x0044_1821 / 0x400_0000 == 0 && 0x0044_1821 / 0x20_0000 % 32 == 2 && 0x0044_1821 / 0x1_0000 % 32 == 4;
    assert 0x0044_1821 / 0x800 % 32 == 3 && 0x0044_1821 / 0x40 % 32 == 0 && 0x0044_1821 % 64 == 0x21;
  }

  lemma LoadEntryWord()
    ensures FieldsOf(0x8C65_0000) == Fields(0x23, 3, 5, 0, 0, 0, 0, 0, 0x0065_0000)
  {
    assert 0x8C65_0000 / 0x400_0000 == 0x23 && 0x8C65_0000 / 0x20_0000 % 32 == 3 && 0x8C65_0000 / 0x1_0000 % 32 == 5;
    assert 0x8C65_0000 / 0x800 % 32 == 0 && 0x8C65_0000 / 0x40 % 32 == 0 && 0x8C65_0000 % 64 == 0;
  }

  // ---- a table entry that charges one cycle too few ----

  /** A bound check, the table's address, its entry, `jr`; then a block of two instructions
      and a branch to its own delay slot, which is thereby a leader; then a return.  The one
      table entry is the second instruction of that block. */
  const TABLE_CODE: seq<Word> :=
    [0x2C81_0001, 0x3C02_0000, 0x2442_1034, 0x0044_1821, 0x8C65_0000, 0x00A0_0008, 0,
     0, 0, 0x1000_0000, 0,
     0x03E0_0008, 0,
     0x1020]

  function TableFunction(): Function {
    Function(0x1000, 0x1034, 0, [], false)
  }

  function TableBuild(): Build {
    Build(ImageOf(0x1000, TABLE_CODE), [TableFunction()], {}, true, false)
  }

  function TableContext(): Context {
    Context(ImageOf(0x1000, TABLE_CODE), TableFunction(), {0x1000}, true)
  }

  lemma TableWord(i: nat)
    requires i < 14
    ensures ImageOf(0x1000, TABLE_CODE).ReadWord(0x1000 + 4 * i) == Some(TABLE_CODE[i])
  {
    hide BytesOf;
    WordOfImage(0x1000, TABLE_CODE, i);
  }

  lemma PlainWords()
    ensures !IsControlFlow(FieldsOf(0)) && !IsControlFlow(FieldsOf(0x2C81_0001))
            && !IsControlFlow(FieldsOf(0x3C02_0000))
    ensures !IsControlFlow(FieldsOf(0x2442_1034)) && !IsControlFlow(FieldsOf(0x0044_1821))
            && !IsControlFlow(FieldsOf(0x8C65_0000))
  {
    hide FieldsOf;
    NopWord();
    BoundWord();
    UpperWord();
    LowerWord();
    SumWord();
    LoadEntryWord();
  }

  lemma TransferWords()
    ensures IsControlFlow(FieldsOf(0x00A0_0008)) && IsControlFlow(FieldsOf(0x1000_0000))
            && IsControlFlow(FieldsOf(0x03E0_0008))
    ensures AnalyzeInstruction(0x1014, 0x00A0_0008)
            == ControlFlowInstr(0x1014, 0x00A0_0008, JumpRegister, 0, true, false)
    ensures AnalyzeInstruction(0x1024, 0x1000_0000)
            == ControlFlowInstr(0x1024, 0x1000_0000, Branch, 0x1028, true, false)
    ensures AnalyzeInstruction(0x102C, 0x03E0_0008) == ControlFlowInstr(0x102C, 0x03E0_0008, Return, 0, true, false)
  {
    hide FieldsOf;
    JumpWord();
    BranchWord();
    ReturnWord();
  }

  lemma TransfersAre(c: int)
    requires 0x1000 <= c < 0x1034 && Aligned(c)
    ensures TransferAt(ImageOf(0x1000, TABLE_CODE), c) <==> c == 0x1014 || c == 0x1024 || c == 0x102C
  {
    hide FieldsOf, IsControlFlow, ImageOf, Image.ReadWord;
    PlainWords();
    TransferWords();
    var i := (c - 0x1000) / 4;
    assert c == 0x1000 + 4 * i;
    TableWord(i);
  }

  predicate InTableLeaders(a: int) {
    a == 0x1000 || a == 0x101C || a == 0x1028 || a == 0x102C
  }

  lemma TableReads()
    ensures var img := ImageOf(0x1000, TABLE_CODE);
            img.ReadWord(0x1014) == Some(0x00A0_0008) && img.ReadWord(0x1024) == Some(0x1000_0000)
            && img.ReadWord(0x102C) == Some(0x03E0_0008)
  {
    hide ImageOf, Image.ReadWord;
    TableWord(5);
    TableWord(9);
    TableWord(11);
  }

  lemma LeadersAre(a: int)
    ensures IsLeader(ImageOf(0x1000, TABLE_CODE), TableFunction(), a) <==> InTableLeaders(a)
  {
    hide ImageOf, Image.ReadWord, TransferAt, AnalyzeInstruction, FieldsOf;
    var img, f := ImageOf(0x1000, TABLE_CODE), TableFunction();
    TableReads();
    TransferWords();
    forall c: int | f.WalkLo() <= c < f.end && Aligned(c) && LeadsTo(img, c, a)
      ensures f.InRange(a) ==> InTableLeaders(a)
    {
      TransfersAre(c);
    }
    TransfersAre(0x1014);
    TransfersAre(0x1024);
    assert LeadsTo(img, 0x1014, 0x101C) && LeadsTo(img, 0x1024, 0x1028) && LeadsTo(img, 0x1024, 0x102C);
  }

  lemma TableNext(x: int, n: int)
    requires 0x1000 <= x <= n < 0x1034 && Aligned(x) && InTableLeaders(n) && forall y :: x <= y < n ==>
            !InTableLeaders(y)
    ensures NextFrom(ImageOf(0x1000, TABLE_CODE), TableFunction(), x) == n
  {
    hide ImageOf, IsLeader, NextFrom, InTableLeaders;
    var img, f := ImageOf(0x1000, TABLE_CODE), TableFunction();
    NextFromBound(img, f, x);
    var r := NextFrom(img, f, x);
    LeadersAre(n);
    LeadersAre(r);
    LeaderAligned(img, f, n);
  }

  lemma TableFunctionValid()
    ensures TableFunction().Valid()
  {
  }

  lemma FirstBlock()
    ensures BlockAt(ImageOf(0x1000, TABLE_CODE), TableFunction(), 0x1000).exit
            == ControlFlowInstr(0x1014, 0x00A0_0008, JumpRegister, 0, true, false)
  {
    hide ImageOf, IsLeader, NextFrom, TransferAt, AnalyzeInstruction, Image.ReadWord, NextAddresses, KeepLeaders;
    TableNext(0x1004, 0x101C);
    TransfersAre(0x1014);
    TableReads();
    TransferWords();
  }

  lemma SecondBlock()
    ensures var blk := BlockAt(ImageOf(0x1000, TABLE_CODE), TableFunction(), 0x101C);
            blk.end == 0x1024 && DelaySlotOutside(blk)
  {
    hide ImageOf, IsLeader, NextFrom, TransferAt, AnalyzeInstruction, Image.ReadWord, NextAddresses, KeepLeaders;
    TableNext(0x1020, 0x1028);
    TransfersAre(0x1020);
    TransfersAre(0x1024);
    TableReads();
    TransferWords();
  }

  // ---- the table in front of the jump ----

  lemma ScanWord(i: nat)
    requires i < 5
    ensures ImageOf(0x1000, TABLE_CODE).ReadWord(0x1014 - (5 - i) * 4) == Some(TABLE_CODE[i])
  {
    hide ImageOf, Image.ReadWord;
    TableWord(i);
    assert 0x1014 - (5 - i) * 4 == 0x1000 + 4 * i;
  }

  lemma ScanOnce(back: int, s: EmitScan, w: Word)
    requires 1 <= back <= 5 && ImageOf(0x1000, TABLE_CODE).ReadWord(0x1014 - back * 4) == Some(w)
    ensures EmitScanFrom(ImageOf(0x1000, TABLE_CODE), 0x1014, 5, 0x1000, back, s)
            == (var (s', stop) := EmitStep(s, FieldsOf(w), 5);
                if stop then s' else EmitScanFrom(ImageOf(0x1000, TABLE_CODE), 0x1014, 5, 0x1000, back + 1, s'))
  {
    hide ImageOf, Image.ReadWord, FieldsOf, EmitStep;
  }

  lemma ScanSteps()
    ensures EmitScanFrom(ImageOf(0x1000, TABLE_CODE), 0x1014, 5, 0x1000, 1, EMIT_START)
            == EmitScan(3, 0, 2, 4, 2, 0, 0x1034, 0, true, false, true, 1)
  {
    hide ImageOf, Image.ReadWord, FieldsOf, EmitScanFrom;
    var img := ImageOf(0x1000, TABLE_CODE);
    LoadEntryWord();
    SumWord();
    LowerWord();
    UpperWord();
    BoundWord();
    ScanWord(4);
    ScanWord(3);
    ScanWord(2);
    ScanWord(1);
    ScanWord(0);
    var s1 := EmitScan(3, 0, NO_REG, NO_REG, NO_REG, 0, 0, 0, false, false, false, 0);
    var s2 := EmitScan(3, 0, 2, 4, 4, 0, 0, 0, false, false, false, 0);
    var s3 := EmitScan(3, 0, 2, 4, 4, 0, 0x1034, 0, true, false, false, 0);
    var s4 := EmitScan(3, 0, 2, 4, 2, 0, 0x1034, 0, true, false, true, 0);
    var s5 := EmitScan(3, 0, 2, 4, 2, 0, 0x1034, 0, true, false, true, 1);
    ScanOnce(1, EMIT_START, 0x8C65_0000);
    ScanOnce(2, s1, 0x0044_1821);
    ScanOnce(3, s2, 0x2442_1034);
    ScanOnce(4, s3, 0x3C02_0000);
    ScanOnce(5, s4, 0x2C81_0001);
    ScanEnds(img, s5);
  }

  lemma ScanEnds(img: Image, s: EmitScan)
    ensures EmitScanFrom(img, 0x1014, 5, 0x1000, 6, s) == s
  {
    hide FieldsOf, EmitStep;
  }

  lemma TableFound()
    ensures var img := ImageOf(0x1000, TABLE_CODE);
            FindTable(img, 0x1014, 5, 0x1000) == Some(Table(0x1034, 1))
            && TableEntry(img, Table(0x1034, 1), 0) == Some(0x1020) && RamToRom(img, 0x1020) == 0x1020
  {
    hide Image.ReadWord, EmitScanFrom, BytesOf;
    ScanSteps();
    TableWord(13);
    BytesOfAt(TABLE_CODE, 0);
  }

  /** The entry jumps into the middle of a block whose delay slot lies outside: the emitted
      case charges two cycles for the three instructions to come. */
  lemma ShortEntryExample(h: Host)
    requires h.cpu.gpr[5] == 0x1020
    ensures var b := TableBuild();
            var c := UnitContext(b, 0);
            var first := BlockAt(c.img, c.f, 0x1000);
            var o := RunStmts(JumpRegisterExit(c, first), h);
            && b.Valid() && b.IsUnit(0) && LiveLabel(c, UnitLive(b, 0), 0x1020) && ShortEntry(c, 0x1020)
            && o.event == Jumped(0x1020) && o.h.cycles == h.cycles + 2 && OwedAt(c, 0x1020) == 3
  {
    hide ImageOf, BlockAt, IsLeader, RunStmts, FieldsOf, MidBlockCharge, FindTable, TableEntry, RamToRom, HasLabel,
         BlockStart, DelaySlotOutside, LiveLabel, Function.Valid;
    var b := TableBuild();
    var c := UnitContext(b, 0);
    TableContextIs();
    TableUnit();
    TableLabel();
    FirstBlock();
    SecondBlock();
    JumpWord();
    TableFound();
    assert FirstEntry(c.img, Table(0x1034, 1), 0, 0, 0x1020);
    SwitchTransparent(c, BlockAt(c.img, c.f, 0x1000), [], h);
    assert JumpRegisterExit(c, BlockAt(c.img, c.f, 0x1000)) + [] == JumpRegisterExit(c, BlockAt(c.img, c.f, 0x1000));
    LeadersAre(0x1020);
    EntryChargeIsOwed(c, UnitLive(b, 0), 0x1020);
  }

  lemma TableContextIs()
    ensures UnitContext(TableBuild(), 0) == TableContext() && TableBuild().IsUnit(0)
  {
    hide ImageOf;
    var b := TableBuild();
    assert TableFunction() in b.functions;
    assert b.Known() == {0x1000};
  }

  lemma TableUnit()
    ensures TableBuild().Valid()
  {
    hide ImageOf, Function.Valid;
    TableFunctionValid();
  }

  lemma TableHome()
    ensures HomeOf(TableContext(), 0x1020) == 0x101C
  {
    hide ImageOf, IsLeader;
    LeadersAre(0x1020);
    LeadersAre(0x101C);
  }

  lemma TableLabel()
    ensures var c := TableContext();
            LiveLabel(c, UnitLive(TableBuild(), 0), 0x1020) && HasLabel(c.img, c.f, 0x1020)
              && HomeOf(c, 0x1020) == 0x101C
  {
    hide ImageOf, IsLeader, BlockAt, FindTable, TableEntry, RamToRom, FieldsOf, BlockStart, Leaders, Function.Valid;
    var c := TableContext();
    TableContextIs();
    TableHome();
    TableFunctionValid();
    LeadersAre(0x1000);
    LeadersAre(0x1020);
    LeadersAre(0x101C);
    CfgOrder(c);
    FirstBlock();
    JumpWord();
    TableFound();
    assert 0x1020 in TableTargets(c.img, c.f, BlockAt(c.img, c.f, 0x1000).exit) by {
      OneTarget(c);
    }
    assert TableTarget(c.img, c.f, 0x1020);
    AllBlocksClosed(c);
  }

  lemma CfgOrder(c: Context)
    requires c.f.Valid()
    ensures forall a :: IsLeader(c.img, c.f, a) && c.f.WalkLo() <= a ==> a in Leaders(c.img, c.f)
  {
    hide IsLeader;
    LeadersFromMembers(c.img, c.f, c.f.WalkLo());
  }

  lemma OneTarget(c: Context)
    requires c == TableContext()
    ensures 0x1020 in TableTargets(c.img, c.f, ControlFlowInstr(0x1014, 0x00A0_0008, JumpRegister, 0, true, false))
  {
    hide ImageOf, FindTable, TableEntry, RamToRom, FieldsOf;
    JumpWord();
    TableFound();
  }

  // ---- a foreign address that runs a function from its top ----

  /** A function that only returns. */
  function ReturnBuild(): Build {
    Build(ImageOf(0x1000, [0x03E0_0008, 0]), [Function(0x1000, 0x1008, 0, [], false)], {}, true, true)
  }

  lemma ReturnLeaders(a: int)
    ensures var b := ReturnBuild(); IsLeader(b.img, b.functions[0], a) <==> a == 0x1000
  {
    hide ImageOf, Image.ReadWord, FieldsOf;
    var b := ReturnBuild();
    WordOfReturn();
    NopWord();
    ReturnWord();
    forall c: int | 0x1000 <= c < 0x1008 && Aligned(c) && LeadsTo(b.img, c, a) ensures !b.functions[0].InRange(a) {
      assert c == 0x1000 || c == 0x1004;
    }
  }

  lemma WordOfReturn()
    ensures ReturnBuild().img.ReadWord(0x1000) == Some(0x03E0_0008) && ReturnBuild().img.ReadWord(0x1004) == Some(0)
  {
    hide BytesOf;
    WordOfImage(0x1000, [0x03E0_0008, 0], 0);
    WordOfImage(0x1000, [0x03E0_0008, 0], 1);
  }

  /** Called for an address it does not serve, the function has no entry switch to hand it back:
      it runs from its top with the address still in `cpu->pc`. */
  lemma ForeignAddressExample(h: Host)
    requires h.pc == 0x2000
    ensures var b := ReturnBuild();
            && b.Valid() && b.overlay && b.IsUnit(0) && h.pc as int !in UnitContinuations(b, 0)
            && var o := RunStmts(UnitText(b, 0), h); o.event == Reached(0x1000) && o.h.pc == 0x2000
  {
    hide ImageOf, IsLeader, UnitContinuations, UnitText, RunStmts, BlockAt, CallContinuation, UnitLive;
    var b := ReturnBuild();
    forall a ensures IsLeader(b.img, b.functions[0], a) ==> a == 0x1000 {
      ReturnLeaders(a);
    }
    ReturnExit();
    WithoutContinuations(b, 0);
    ForeignAddress(b, 0, h);
  }

  lemma ReturnExit()
    ensures var b := ReturnBuild(); CallContinuation(BlockAt(b.img, b.functions[0], 0x1000)) == []
  {
    hide ImageOf, IsLeader, Image.ReadWord, FieldsOf, NextAddresses, KeepLeaders;
    var b := ReturnBuild();
    WordOfReturn();
    ReturnWord();
    ReturnLeaders(0x1004);
  }

  // ---- a program that meets every condition ----

  lemma ReturnUnitIs()
    ensures var b := ReturnBuild();
            && b.Valid() && b.IsUnit(0) && b.functions[0].Valid()
            && UnitContext(b, 0) == Context(b.img, b.functions[0], {0x1000}, true)
  {
    hide ImageOf;
    var b := ReturnBuild();
    assert b.functions[0] in b.functions;
    assert b.Known() == {0x1000};
  }

  lemma ReturnBlock()
    ensures var b := ReturnBuild();
            var blk := BlockAt(b.img, b.functions[0], 0x1000);
            && blk.end == 0x1004 && blk.exit == ControlFlowInstr(0x1000, 0x03E0_0008, Return, 0, true, false)
  {
    hide ImageOf, IsLeader, Image.ReadWord, FieldsOf, NextAddresses, KeepLeaders;
    WordOfReturn();
    ReturnWord();
    ReturnLeaders(0x1004);
  }

  lemma ReturnTransfers()
    ensures var img := ReturnBuild().img;
            TransferAt(img, 0x1000) && !TransferAt(img, 0x1004) && GoodTransfer(img, 0x1000) && GoodPlain(img, 0x1004)
  {
    hide ImageOf, Image.ReadWord, FieldsOf;
    WordOfReturn();
    ReturnWord();
    NopWord();
  }

  lemma ReturnGood()
    ensures var b := ReturnBuild(); GoodBlock(UnitContext(b, 0), 0x1000)
  {
    hide ImageOf, IsLeader, FieldsOf, BlockAt, TransferAt, GoodTransfer, GoodPlain, Function.Valid;
    var b := ReturnBuild();
    var c := UnitContext(b, 0);
    ReturnUnitIs();
    ReturnBlock();
    ReturnTransfers();
    BlockStartsAt(c, 0x1000);
    forall x | 0x1000 <= x <= BlockEnd(c.img, c.f, 0x1000) && Aligned(x) ensures GoodInstruction(c.img, x) {
      assert x == 0x1000 || x == 0x1004;
    }
  }

  lemma ReturnNoTables()
    ensures var b := ReturnBuild(); var c := UnitContext(b, 0); forall t :: !ExtraLabel(c.img, c.f, t)
  {
    hide ImageOf, IsLeader, FieldsOf, BlockAt, TableTargets, Function.Valid, Leaders;
    var b := ReturnBuild();
    var c := UnitContext(b, 0);
    ReturnUnitIs();
    forall a, t | a in Leaders(c.img, c.f) ensures t !in TableTargets(c.img, c.f, BlockAt(c.img, c.f, a).exit) {
      LeaderInRange(c.img, c.f, a);
      ReturnLeaders(a);
      ReturnBlock();
      NoTargetsOfReturn(c, BlockAt(c.img, c.f, a).exit);
    }
  }

  lemma NoTargetsOfReturn(c: Context, exit: ControlFlowInstr)
    requires exit.kind == Return
    ensures TableTargets(c.img, c.f, exit) == []
  {
  }

  /** Its only label is its start. */
  lemma ReturnLabel(t: int)
    ensures var b := ReturnBuild(); var c := UnitContext(b, 0); LiveLabel(c, UnitLive(b, 0), t) ==> t == 0x1000
    ensures HomeOf(UnitContext(ReturnBuild(), 0), 0x1000) == 0x1000
    ensures AllLabelsEmitted(ReturnBuild()) && !ShortEntry(UnitContext(ReturnBuild(), 0), 0x1000)
  {
    hide ImageOf, IsLeader, ExtraLabel, BlockAt, UnitLive, Function.Valid, Build.Valid;
    ReturnUnitIs();
    ReturnNoTables();
    ReturnLeaders(t);
    ReturnLeaders(0x1000);
    OnlyFirst(ReturnBuild());
  }

  lemma OnlyFirst(b: Build)
    requires |b.functions| == 1
    ensures forall i: nat :: b.IsUnit(i) ==> i == 0
  {
  }

  lemma ReturnNoOverflow(cpu: Cpu)
    ensures var b := ReturnBuild();
            NoOverflow(b.img, At(0x1000, cpu), 2) && LabelSteps(UnitContext(b, 0), 0x1000) == 2
  {
    hide ImageOf, Image.ReadWord, FieldsOf, HomeOf, BlockAt, TransferAt;
    var img := ReturnBuild().img;
    WordOfReturn();
    ReturnWord();
    NopWord();
    ReturnTransfers();
    forall k: nat | k < 2 && RefRun(img, At(0x1000, cpu), k).Some?
      ensures !AtOverflow(img, RefRun(img, At(0x1000, cpu), k).value)
    {
      if k == 1 {
        SecondStep(img, cpu);
      }
    }
  }

  lemma SecondStep(img: Image, cpu: Cpu)
    ensures RefRun(img, At(0x1000, cpu), 1).Some? ==> RefRun(img, At(0x1000, cpu), 1).value.pc == 0x1004
  {
    hide Image.ReadWord, FieldsOf, Decode, ExecInstr, Transfer, IsTransfer;
    if RefStep(img, At(0x1000, cpu)).Some? {
      var m := RefStep(img, At(0x1000, cpu)).value;
      assert RefRun(img, m, 0) == Some(m);
    }
  }

  lemma ReturnAlwaysGood(c: Config)
    ensures GoodAt(ReturnBuild(), c)
  {
    hide ReturnBuild, UnitContext, UnitLive, UnitTail, LiveLabel, HomeOf, NoOverflow, GoodBlock, ResumeText,
         LabelSteps, Build.Valid, Build.IsUnit, AllLabelsEmitted, ShortEntry;
    var b := ReturnBuild();
    ReturnGood();
    ReturnIsOne();
    OnlyFirst(b);
    if c.Running? && c.frames != [] {
      forall i: nat, t: Word {:trigger LabelOk(b, c.frames[|c.frames| - 1], c.h, i, t)} |
        LabelOk(b, c.frames[|c.frames| - 1], c.h, i, t)
        ensures GoodStage(b, AtLabel(i, t), c.h.cpu)
      {
        ReturnLabel(t);
        ReturnNoOverflow(c.h.cpu);
      }
    }
  }

  lemma ReturnIsOne()
    ensures |ReturnBuild().functions| == 1
  {
    hide ImageOf;
  }

  lemma ReturnIsClosed(i: nat)
    ensures !OpenUnit(ReturnBuild(), i)
  {
    hide ImageOf, IsLeader, BlockAt, UnitLive, Build.Valid;
    var b := ReturnBuild();
    ReturnUnitIs();
    OnlyFirst(b);
    ReturnBlock();
    forall a ensures IsLeader(b.img, b.functions[0], a) ==> a == 0x1000 {
      ReturnLeaders(a);
    }
  }

  /** The conditions of the run theorems can be met, in every run from every state: by the
      function that only returns. */
  lemma ConditionsAreMet()
    ensures var b := ReturnBuild();
            && b.Valid() && AllLabelsEmitted(b) && NoShortEntries(b)
            && (forall i: nat :: !OpenUnit(b, i))
            && forall entry, cpu, n: nat :: GoodBefore(b, entry, cpu, n)
  {
    hide ReturnBuild, Build.Valid, GoodAt, OpenUnit, UnitContext, UnitLive, LiveLabel, ShortEntry, Build.IsUnit,
         After, AllLabelsEmitted;
    var b := ReturnBuild();
    ReturnUnitIs();
    ReturnIsOne();
    OnlyFirst(b);
    forall t ensures LiveLabel(UnitContext(b, 0), UnitLive(b, 0), t) ==> !ShortEntry(UnitContext(b, 0), t) {
      ReturnLabel(t);
    }
    ReturnLabel(0x1000);
    forall i: nat ensures !OpenUnit(b, i) {
      ReturnIsClosed(i);
    }
    forall entry, cpu, n: nat ensures GoodBefore(b, entry, cpu, n) {
      forall j: nat | j < n ensures GoodAt(b, After(b, entry, cpu, j)) {
        ReturnAlwaysGood(After(b, entry, cpu, j));
      }
    }
  }

  // ---- running off the end ----

  /** One instruction, and no function behind it. */
  function OpenBuild(): Build {
    Build(ImageOf(0x1000, [0]), [Function(0x1000, 0x1004, 0, [], false)], {}, true, false)
  }

  lemma OpenWord()
    ensures OpenBuild().img.ReadWord(0x1000) == Some(0) && OpenBuild().img.ReadWord(0x1004) == None
  {
    hide BytesOf;
    WordOfImage(0x1000, [0], 0);
  }

  lemma OpenLeaders(a: int)
    ensures var b := OpenBuild(); IsLeader(b.img, b.functions[0], a) <==> a == 0x1000
  {
    hide ImageOf, Image.ReadWord, FieldsOf;
    OpenWord();
    NopWord();
  }

  lemma OpenBlock()
    ensures var b := OpenBuild();
            var blk := BlockAt(b.img, b.functions[0], 0x1000);
            blk.end == 0x1000 && blk.exit == ControlFlowInstr(0x1000, 0, NoTransfer, 0, false, false)
  {
    hide ImageOf, IsLeader, Image.ReadWord, FieldsOf, NextAddresses, KeepLeaders;
    OpenWord();
    NopWord();
  }

  lemma OpenUnitIs()
    ensures var b := OpenBuild();
            b.Valid() && b.IsUnit(0) && UnitContext(b, 0) == Context(b.img, b.functions[0], {0x1000}, true)
              && b.functions[0].Valid()
  {
    hide ImageOf;
    var b := OpenBuild();
    assert b.functions[0] in b.functions;
    assert b.Known() == {0x1000};
  }

  lemma OpenGood()
    ensures var b := OpenBuild();
            var c := UnitContext(b, 0);
            && GoodBlock(c, 0x1000) && AllLabelsEmitted(b) && HomeOf(c, 0x1000) == 0x1000 && RunsOut(b, 0, 0x1000)
  {
    hide ImageOf, IsLeader, Image.ReadWord, FieldsOf, BlockAt, Leaders, Build.Valid, Function.Valid;
    var b := OpenBuild();
    var c := UnitContext(b, 0);
    OpenUnitIs();
    OpenWord();
    OpenLeaders(0x1000);
    OpenBlock();
    NopWord();
    BlockStartsAt(c, 0x1000);
    OpenNoTables(c);
  }

  lemma OpenNoTables(c: Context)
    requires c == UnitContext(OpenBuild(), 0)
    ensures forall t :: !ExtraLabel(c.img, c.f, t)
  {
    hide ImageOf, IsLeader, FieldsOf, BlockAt, TableTargets, Function.Valid, Leaders;
    OpenUnitIs();
    forall b, t | b in Leaders(c.img, c.f) ensures t !in TableTargets(c.img, c.f, BlockAt(c.img, c.f, b).exit) {
      LeaderInRange(c.img, c.f, b);
      OpenLeaders(b);
      OpenBlock();
      NoTargets(c, BlockAt(c.img, c.f, b).exit);
    }
  }

  lemma NoTargets(c: Context, exit: ControlFlowInstr)
    requires exit.kind == CfKind.NoTransfer
    ensures TableTargets(c.img, c.f, exit) == []
  {
  }

  lemma NopRuns(cpu: Cpu)
    requires cpu.gpr[0] == 0
    ensures var img := OpenBuild().img;
            RefRun(img, At(0x1000, cpu), 1) == Some(At(0x1004, cpu)) && NoOverflow(img, At(0x1000, cpu), 1)
  {
    hide ImageOf, Image.ReadWord, FieldsOf;
    OpenWord();
    NopWord();
    var img := OpenBuild().img;
    assert RefStep(img, At(0x1000, cpu)) == Some(At(0x1004, cpu)) by { NopStep(cpu); }
    assert RefRun(img, At(0x1004, cpu), 0) == Some(At(0x1004, cpu));
    assert RefRun(img, At(0x1000, cpu), 0) == Some(At(0x1000, cpu));
  }

  lemma NopStep(cpu: Cpu)
    requires cpu.gpr[0] == 0
    ensures RefStep(OpenBuild().img, At(0x1000, cpu)) == Some(At(0x1004, cpu))
  {
    hide ImageOf, Image.ReadWord, FieldsOf;
    OpenWord();
    NopWord();
    assert cpu.gpr[0 := 0] == cpu.gpr;
  }

  lemma OpenCallable()
    ensures Func(0x1000) in ProgramOf(OpenBuild()).text
  {
    hide ImageOf, ProgramOf;
    OpenUnitIs();
    EveryStartIsCallable(OpenBuild(), 0);
  }

  lemma OpenFinishes(cpu: Cpu, c: Config) returns (n: nat, h: Host)
    requires cpu.gpr[0] == 0 && c.Running?
            && Synced(OpenBuild(), ProgramOf(OpenBuild()), c, AtLabel(0, 0x1000), At(0x1000, cpu))
    ensures Steps(ProgramOf(OpenBuild()), c, n) == Stopped(Finished, h) && h.cpu == cpu && h.pc == 0
  {
    hide ImageOf, Build.Valid, AllLabelsEmitted, ProgramOf, Steps, GoodBlock, HomeOf, RunsOut, NoOverflow, RefRun,
         UnitContext, Synced;
    OpenUnitIs();
    OpenGood();
    NopRuns(cpu);
    n, h := OpenEndFinishes(OpenBuild(), c.frames, c.h, 0, 0x1000, At(0x1000, cpu));
  }

  /** The program finishes where the reference machine stands at 0x1004. */
  lemma OpenEndExample(cpu: Cpu) returns (n: nat, h: Host)
    requires cpu.gpr[0] == 0
    ensures After(OpenBuild(), 0x1000, cpu, n) == Stopped(Finished, h) && h.cpu == cpu && h.pc == 0
    ensures RefRun(OpenBuild().img, At(0x1000, cpu), 1) == Some(At(0x1004, cpu))
  {
    hide OpenBuild, ProgramOf, Step, Steps, RefRun, Synced, NoOverflow;
    var p := ProgramOf(OpenBuild());
    NopRuns(cpu);
    var c1, c2 := OpenEnters(cpu);
    n, h := OpenFinishes(cpu, c2);
    StepsFirst(p, c1, n);
    StepsFirst(p, Start(0x1000, cpu), n + 1);
    n := n + 2;
  }

  lemma OnlyUnit(b: Build, c: Config, s: Stage, m: Machine)
    requires b == OpenBuild() && c.Running? && s.AtEntry? && Synced(b, ProgramOf(b), c, s, m)
    ensures s == AtEntry(0, m.pc) && c.frames != [] && c.frames[|c.frames| - 1].id == UnitId(b, 0)
  {
    hide ImageOf, ProgramOf, StackOk, UnitContinuations, EntersAt;
    OpenUnitIs();
  }

  lemma OpenEnters(cpu: Cpu) returns (c1: Config, c2: Config)
    requires cpu.gpr[0] == 0
    ensures var b := OpenBuild();
            && c1 == Step(ProgramOf(b), Start(0x1000, cpu)) && c2 == Step(ProgramOf(b), c1) && c2.Running?
              && c2.h.cpu == cpu
            && Synced(b, ProgramOf(b), c2, AtLabel(0, 0x1000), At(0x1000, cpu))
  {
    hide OpenBuild, Build.Valid, AllLabelsEmitted, ProgramOf, StackOk, ShortAt, StepsAfter, UnitContext, UnitText,
         GoodBlock, RunsOut, HomeOf, EntersAt, LabelOk, Rank, Ahead, StageSteps, AtShortEntry, AfterEvent, RunStmts;
    var b := OpenBuild();
    var p := ProgramOf(b);
    OpenUnitIs();
    OpenGood();
    OpenCallable();
    var h := Host(cpu, 0x1000, false, 0, 0, 0);
    var m := At(0x1000, cpu);
    var s1 := DispatchStep(b, h, m);
    c1 := Step(p, Dispatching(h));
    OnlyUnit(b, c1, s1, m);
    var s2 := UnitEntryStep(b, c1.frames, c1.h, 0, 0x1000, m);
    c2 := Step(p, c1);
  }
}
