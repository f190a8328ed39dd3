/** The backward scan that recognises a compiler's jump table in front of `jr reg`, in
    its three copies: the emitting scan (translate_basic_block), the pre-scan
    (scan_jr_tables) and the overlay tool's scan (_find_jump_table_targets). */
module JumpTables {
  import opened Words
  import opened ControlFlow

  /** The address whose bytes stand for runtime address `addr` at recompile time. */
  function RamToRom(img: Image, addr: Word): Word {
    var phys := addr % 0x2000_0000;
    var exePhys := img.load % 0x2000_0000;
    if |img.code| != 0 && exePhys <= phys < exePhys + |img.code| then Wrap(img.load + (phys - exePhys))
    else if 0x0003_0000 <= phys <= 0x0005_AFFF then 0xBFC1_8000 + (phys - 0x0003_0000)
    else addr
  }

  /** A recognised table: where its entries are and how many. */
  datatype Table = Table(base: Word, count: int)

  // ---- the scan of translate_basic_block ----

  const NO_REG := 0xFF

  datatype EmitScan = EmitScan(
    lwBase: int, lwOff: int, cand0: int, cand1: int, tableReg: int, luiVal: Word,
    addiu0: int, addiu1: int, found0: bool, found1: bool, foundLui: bool, count: int)

  const EMIT_START := EmitScan(NO_REG, 0, NO_REG, NO_REG, NO_REG, 0, 0, 0, false, false, false, 0)

  /** One instruction of the scan; the flag says to stop. */
  function EmitStep(s: EmitScan, f: Fields, jr: Reg): (EmitScan, bool) {
    if f.op == 0x23 && f.rt == jr && s.lwBase == NO_REG then
      (s.(lwBase := f.rs, lwOff := f.simm), false)
    else if f.op == 0x00 && f.funct == 0x21 && f.rd == s.lwBase && s.lwBase != NO_REG && s.cand0 == NO_REG then
      (s.(cand0 := f.rs, cand1 := f.rt, tableReg := f.rt), false)
    else if f.op == 0x09 && s.cand0 != NO_REG then
      if !s.found0 && s.cand0 != NO_REG && f.rs == s.cand0 && f.rt == s.cand0 then
        (s.(addiu0 := f.simm, found0 := true), false)
      else if !s.found1 && s.cand1 != NO_REG && f.rs == s.cand1 && f.rt == s.cand1 then
        (s.(addiu1 := f.simm, found1 := true), false)
      else (s, false)
    else if f.op == 0x0F && s.cand0 != NO_REG && !s.foundLui then
      if s.cand0 != NO_REG && f.rt == s.cand0 then
        (s.(luiVal := f.imm * 0x1_0000, tableReg := s.cand0, addiu0 := if s.found0 then s.addiu0 else 0,
            foundLui := true), false)
      else if s.cand1 != NO_REG && f.rt == s.cand1 then
        var a1 := if s.found1 then s.addiu1 else 0;
        (s.(luiVal := f.imm * 0x1_0000, tableReg := s.cand1, addiu1 := a1, addiu0 := a1, found0 := s.found1,
            foundLui := true), false)
      else (s, false)
    else if f.op == 0x0B && s.count == 0 then
      (s.(count := f.imm), false)
    else (s, s.foundLui && s.count != 0)
  }

  /** The scan from `back` instructions before the jump, at most 40 of them. */
  function EmitScanFrom(img: Image, jrAddr: int, jr: Reg, floor: int, back: int, s: EmitScan): EmitScan
    decreases 41 - back
  {
    var sa := jrAddr - back * 4;
    if back > 40 || sa < floor || img.ReadWord(sa) == None then s
    else
      var (s', stop) := EmitStep(s, FieldsOf(img.ReadWord(sa).value), jr);
      if stop then s' else EmitScanFrom(img, jrAddr, jr, floor, back + 1, s')
  }

  function EmitTable(s: EmitScan): Option<Table> {
    var base := if s.foundLui && 0 < s.count < 512
                then Wrap(Wrap(s.luiVal + (if s.found0 then s.addiu0 else 0)) + s.lwOff) else 0;
    if base != 0 && s.count > 0 then Some(Table(base, s.count)) else None
  }

  function FindTable(img: Image, jrAddr: int, jr: Reg, floor: int): Option<Table> {
    EmitTable(EmitScanFrom(img, jrAddr, jr, floor, 1, EMIT_START))
  }

  /** The scan as the loop it is. */
  method ScanForTable(img: Image, jrAddr: int, jr: Reg, floor: int) returns (t: Option<Table>)
    ensures t == FindTable(img, jrAddr, jr, floor)
  {
    hide EmitStep, FieldsOf, EmitTable;
    var s := EMIT_START;
    var back := 1;
    var stopped := false;
    while back <= 40 && !stopped
      invariant 1 <= back <= 41
      invariant EmitScanFrom(img, jrAddr, jr, floor, 1, EMIT_START)
             == if stopped then s else EmitScanFrom(img, jrAddr, jr, floor, back, s)
      decreases 41 - back, if stopped then 0 else 1
    {
      var sa := jrAddr - back * 4;
      if sa < floor {
        stopped := true;
      } else {
        var w := img.ReadWord(sa);
        if w == None {
          stopped := true;
        } else {
          var (s', stop) := EmitStep(s, FieldsOf(w.value), jr);
          s := s';
          stopped := stop;
          back := back + 1;
        }
      }
    }
    t := EmitTable(s);
  }

  // ---- the pre-scan: the same without the table register ----

  datatype PreScan = PreScan(
    lwBase: int, lwOff: int, ac0: int, ac1: int, luiV: Word, av0: int, av1: int, fa0: bool, fa1: bool,
    fl: bool, tc: int)

  const PRE_START := PreScan(NO_REG, 0, NO_REG, NO_REG, 0, 0, 0, false, false, false, 0)

  function PreStep(s: PreScan, f: Fields, jr: Reg): (PreScan, bool) {
    if f.op == 0x23 && f.rt == jr && s.lwBase == NO_REG then
      (s.(lwBase := f.rs, lwOff := f.simm), false)
    else if f.op == 0x00 && f.funct == 0x21 && f.rd == s.lwBase && s.lwBase != NO_REG && s.ac0 == NO_REG then
      (s.(ac0 := f.rs, ac1 := f.rt), false)
    else if f.op == 0x09 && s.ac0 != NO_REG then
      if !s.fa0 && s.ac0 != NO_REG && f.rs == s.ac0 && f.rt == s.ac0 then (s.(av0 := f.simm, fa0 := true), false)
      else if !s.fa1 && s.ac1 != NO_REG && f.rs == s.ac1 && f.rt == s.ac1 then (s.(av1 := f.simm, fa1 := true), false)
      else (s, false)
    else if f.op == 0x0F && s.ac0 != NO_REG && !s.fl then
      if s.ac0 != NO_REG && f.rt == s.ac0 then
        (s.(luiV := f.imm * 0x1_0000, av0 := if s.fa0 then s.av0 else 0, fl := true), false)
      else if s.ac1 != NO_REG && f.rt == s.ac1 then
        var a1 := if s.fa1 then s.av1 else 0;
        (s.(luiV := f.imm * 0x1_0000, av1 := a1, av0 := a1, fa0 := s.fa1, fl := true), false)
      else (s, false)
    else if f.op == 0x0B && s.tc == 0 then (s.(tc := f.imm), false)
    else (s, s.fl && s.tc != 0)
  }

  function PreScanFrom(img: Image, jrAddr: int, jr: Reg, floor: int, back: int, s: PreScan): PreScan
    decreases 41 - back
  {
    var sa := jrAddr - back * 4;
    if back > 40 || sa < floor || img.ReadWord(sa) == None then s
    else
      var (s', stop) := PreStep(s, FieldsOf(img.ReadWord(sa).value), jr);
      if stop then s' else PreScanFrom(img, jrAddr, jr, floor, back + 1, s')
  }

  function PreTable(s: PreScan): Option<Table> {
    var tb := if s.fl && 0 < s.tc < 512
              then Wrap(Wrap(s.luiV + (if s.fa0 then s.av0 else 0)) + s.lwOff) else 0;
    if tb == 0 || s.tc == 0 then None else Some(Table(tb, s.tc))
  }

  // ---- the overlay tool's scan ----

  datatype ToolScan = ToolScan(
    lwBase: Option<Reg>, lwOff: int, cand: Option<(Reg, Reg)>, lui: Option<int>, addiu0: int, addiu1: int,
    found0: bool, found1: bool, count: int)

  const TOOL_START := ToolScan(None, 0, None, None, 0, 0, false, false, 0)

  function ToolStep(s: ToolScan, f: Fields, jr: Reg): (ToolScan, bool) {
    if f.op == 0x23 && f.rt == jr && s.lwBase == None then
      (s.(lwBase := Some(f.rs), lwOff := f.simm), false)
    else if f.op == 0x00 && f.funct == 0x21 && s.lwBase.Some? && f.rd == s.lwBase.value && s.cand == None then
      (s.(cand := Some((f.rs, f.rt))), false)
    else if f.op == 0x09 && s.cand.Some? then
      if !s.found0 && f.rs == s.cand.value.0 && f.rt == s.cand.value.0 then
        (s.(addiu0 := f.simm, found0 := true), false)
      else if !s.found1 && f.rs == s.cand.value.1 && f.rt == s.cand.value.1 then
        (s.(addiu1 := f.simm, found1 := true), false)
      else (s, false)
    else if f.op == 0x0F && s.cand.Some? && s.lui == None then
      if f.rt == s.cand.value.0 then
        (s.(lui := Some(f.imm * 0x1_0000), addiu0 := if s.found0 then s.addiu0 else 0), false)
      else if f.rt == s.cand.value.1 then
        (s.(lui := Some(f.imm * 0x1_0000), addiu0 := if s.found1 then s.addiu1 else 0, found0 := s.found1), false)
      else (s, false)
    else if f.op == 0x0B && s.count == 0 then
      (s.(count := f.imm), false)
    else (s, s.lui.Some? && s.count != 0)
  }

  function ToolScanFrom(img: Image, jrPc: int, jr: Reg, entry: int, back: int, s: ToolScan): ToolScan
    decreases 41 - back
  {
    var sa := jrPc - back * 4;
    if back > 40 || sa < entry || img.ReadWord(sa) == None then s
    else
      var (s', stop) := ToolStep(s, FieldsOf(img.ReadWord(sa).value), jr);
      if stop then s' else ToolScanFrom(img, jrPc, jr, entry, back + 1, s')
  }

  /** The tool keeps the base as an unbounded integer; a zero base is not special to it. */
  function ToolBase(s: ToolScan): Option<(int, int)> {
    if s.lui == None || s.count == 0 || s.count >= 512 then None
    else Some((s.lui.value + (if s.found0 then s.addiu0 else 0) + s.lwOff, s.count))
  }

  // ---- agreement ----

  predicate SameScan(e: EmitScan, p: PreScan) {
    p == PreScan(e.lwBase, e.lwOff, e.cand0, e.cand1, e.luiVal, e.addiu0, e.addiu1, e.found0, e.found1,
                 e.foundLui, e.count)
  }

  lemma PreStepAgrees(e: EmitScan, p: PreScan, f: Fields, jr: Reg)
    requires SameScan(e, p)
    ensures SameScan(EmitStep(e, f, jr).0, PreStep(p, f, jr).0)
    ensures EmitStep(e, f, jr).1 == PreStep(p, f, jr).1
  {
    if f.op == 0x09 {
    } else if f.op == 0x0F {
    } else {
    }
  }

  lemma {:induction false} PreScanAgrees(img: Image, jrAddr: int, jr: Reg, floor: int, back: int, e: EmitScan,
                                         p: PreScan)
    requires SameScan(e, p)
    ensures SameScan(EmitScanFrom(img, jrAddr, jr, floor, back, e), PreScanFrom(img, jrAddr, jr, floor, back, p))
    decreases 41 - back
  {
    hide FieldsOf, EmitStep, PreStep, SameScan;
    var sa := jrAddr - back * 4;
    if back <= 40 && sa >= floor && img.ReadWord(sa) != None {
      var f := FieldsOf(img.ReadWord(sa).value);
      PreStepAgrees(e, p, f, jr);
      PreScanAgrees(img, jrAddr, jr, floor, back + 1, EmitStep(e, f, jr).0, PreStep(p, f, jr).0);
    }
  }

  predicate ToolMatches(e: EmitScan, t: ToolScan) {
    && (t.lwBase == if e.lwBase == NO_REG then None else Some(e.lwBase))
    && (t.cand == if e.cand0 == NO_REG then None else Some((e.cand0, e.cand1)))
    && (t.lui == if e.foundLui then Some(e.luiVal) else None)
    && t.lwOff == e.lwOff && t.addiu0 == e.addiu0 && t.addiu1 == e.addiu1
    && t.found0 == e.found0 && t.found1 == e.found1 && t.count == e.count
    && (!e.found0 ==> e.addiu0 == 0) && (!e.found1 ==> e.addiu1 == 0)
    && e.count >= 0
    && (e.lwBase == NO_REG || 0 <= e.lwBase < 32)
    && (e.cand0 == NO_REG || (0 <= e.cand0 < 32 && 0 <= e.cand1 < 32))
  }

  lemma ToolStepAgrees(e: EmitScan, t: ToolScan, f: Fields, jr: Reg)
    requires ToolMatches(e, t)
    ensures ToolMatches(EmitStep(e, f, jr).0, ToolStep(t, f, jr).0)
    ensures EmitStep(e, f, jr).1 == ToolStep(t, f, jr).1
  {
    hide EmitStep, ToolStep, ToolMatches;
    if f.op == 0x09 {
      ToolAddiuAgrees(e, t, f, jr);
    } else if f.op == 0x0F {
      ToolLuiAgrees(e, t, f, jr);
    } else {
      ToolOtherAgrees(e, t, f, jr);
    }
  }

  lemma ToolAddiuAgrees(e: EmitScan, t: ToolScan, f: Fields, jr: Reg)
    requires ToolMatches(e, t) && f.op == 0x09
    ensures ToolMatches(EmitStep(e, f, jr).0, ToolStep(t, f, jr).0)
    ensures EmitStep(e, f, jr).1 == ToolStep(t, f, jr).1
  {
  }

  lemma ToolLuiAgrees(e: EmitScan, t: ToolScan, f: Fields, jr: Reg)
    requires ToolMatches(e, t) && f.op == 0x0F
    ensures ToolMatches(EmitStep(e, f, jr).0, ToolStep(t, f, jr).0)
    ensures EmitStep(e, f, jr).1 == ToolStep(t, f, jr).1
  {
  }

  lemma ToolOtherAgrees(e: EmitScan, t: ToolScan, f: Fields, jr: Reg)
    requires ToolMatches(e, t) && f.op != 0x09 && f.op != 0x0F
    ensures ToolMatches(EmitStep(e, f, jr).0, ToolStep(t, f, jr).0)
    ensures EmitStep(e, f, jr).1 == ToolStep(t, f, jr).1
  {
  }

  lemma {:induction false} ToolScanAgrees(img: Image, jrAddr: int, jr: Reg, floor: int, back: int, e: EmitScan,
                                          t: ToolScan)
    requires ToolMatches(e, t)
    ensures ToolMatches(EmitScanFrom(img, jrAddr, jr, floor, back, e), ToolScanFrom(img, jrAddr, jr, floor, back, t))
    decreases 41 - back
  {
    hide FieldsOf, EmitStep, ToolStep, ToolMatches;
    var sa := jrAddr - back * 4;
    if back <= 40 && sa >= floor && img.ReadWord(sa) != None {
      var f := FieldsOf(img.ReadWord(sa).value);
      ToolStepAgrees(e, t, f, jr);
      ToolScanAgrees(img, jrAddr, jr, floor, back + 1, EmitStep(e, f, jr).0, ToolStep(t, f, jr).0);
    }
  }

  /** All three scans find the same base (the tool's modulo 2^32) and the same count; the
      recompiler's two additionally take a base of 0 for no table. */
  lemma ScansAgree(img: Image, jrAddr: int, jr: Reg, floor: int)
    ensures PreTable(PreScanFrom(img, jrAddr, jr, floor, 1, PRE_START)) == FindTable(img, jrAddr, jr, floor)
    ensures var b := ToolBase(ToolScanFrom(img, jrAddr, jr, floor, 1, TOOL_START));
            FindTable(img, jrAddr, jr, floor)
            == if b.Some? && Wrap(b.value.0) != 0 then Some(Table(Wrap(b.value.0), b.value.1)) else None
  {
    hide EmitScanFrom, PreScanFrom, ToolScanFrom;
    PreScanAgrees(img, jrAddr, jr, floor, 1, EMIT_START, PRE_START);
    ToolScanAgrees(img, jrAddr, jr, floor, 1, EMIT_START, TOOL_START);
    var e := EmitScanFrom(img, jrAddr, jr, floor, 1, EMIT_START);
    WrapOnce(e.luiVal + (if e.found0 then e.addiu0 else 0), e.lwOff);
  }

  lemma WrapOnce(a: int, b: int)
    ensures Wrap(Wrap(a) + b) == Wrap(a + b)
  {
    var q := a / WORD_LIMIT;
    assert a + b == WORD_LIMIT * q + (Wrap(a) + b);
    assert (WORD_LIMIT * q + (Wrap(a) + b)) % WORD_LIMIT == (Wrap(a) + b) % WORD_LIMIT;
  }
}
