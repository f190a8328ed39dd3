/** The C emitted for a function in continuation-passing mode, as a flat list of
    statements with labels: translate_basic_block, generate_function,
    generate_alias_group and scan_jr_tables. */
module Emit {
  import opened Words
  import opened ControlFlow
  import opened JumpTables
  import Translate

  /** Where a branch arm goes: to a label of this function, or out of it by publishing
      `cpu->pc` and returning. */
  datatype Arm = GotoArm(dest: int) | PublishArm(addr: Word)

  /** `case value: [charge]; goto block_label;` */
  datatype Case = Case(value: Word, charge: nat, dest: int)

  datatype Stmt =
    | Label(a: int)
    | Charge(n: nat)
    | Perform(s: Translate.CStmt)
    | PerformIf(cond: Fields, s: Translate.CStmt)
    | SetLink(r: Reg, v: Word)
    | SaveCond(cond: Fields)
    | SaveTarget(r: Reg)
    | IfSaved(taken: Arm, notTaken: Arm)
    | IfNow(cond: Fields, taken: Arm, notTaken: Arm)
    | SwitchOn(r: Reg, cases: seq<Case>)
    | Goto(dest: int)
    | Publish(addr: Word)
    | PublishReg(r: Reg)
    | PublishSaved
    | CallNext(callee: Word)
    | CallBody(host: Word, entry: Word)
    | EntrySwitch(conts: seq<Case>, overlay: bool, start: Word)
    | EntryGoto(entries: seq<Word>)
    | ReturnStmt
    | UnknownDispatch

  /** What the emitter is given: the image, the function whose graph is emitted, the
      starts of all functions of the unit, and whether whole blocks are charged. */
  datatype Context = Context(img: Image, f: Function, known: set<int>, blockMode: bool)

  // ---- jump tables ----

  function TableEntry(img: Image, t: Table, i: int): Option<Word> {
    img.ReadWord(Wrap(RamToRom(img, t.base) + 4 * i))
  }

  /** The table in front of a block's `jr`, if the scan finds one. */
  function TableOf(img: Image, f: Function, exit: ControlFlowInstr): Option<Table> {
    if exit.kind != JumpRegister then None
    else FindTable(img, exit.address, FieldsOf(exit.word).rs, f.WalkLo())
  }

  /** The in-function targets of a table from entry `i` on. */
  function TargetsFrom(img: Image, f: Function, t: Table, i: int): seq<int>
    decreases t.count - i
  {
    if i >= t.count then []
    else
      var e := TableEntry(img, t, i);
      (if e.Some? && f.InRange(RamToRom(img, e.value)) then [RamToRom(img, e.value) as int] else [])
        + TargetsFrom(img, f, t, i + 1)
  }

  function TableTargets(img: Image, f: Function, exit: ControlFlowInstr): seq<int> {
    var t := TableOf(img, f, exit);
    if t == None then [] else TargetsFrom(img, f, t.value, 0)
  }

  /** Some block's table jumps to `a`. */
  predicate TableTarget(img: Image, f: Function, a: int) {
    exists b :: b in Leaders(img, f) && a in TableTargets(img, f, BlockAt(img, f, b).exit)
  }

  /** Mid-block table targets get labels of their own. */
  predicate ExtraLabel(img: Image, f: Function, a: int) {
    TableTarget(img, f, a) && !IsLeader(img, f, a)
  }

  predicate HasLabel(img: Image, f: Function, a: int) {
    IsLeader(img, f, a) || ExtraLabel(img, f, a)
  }

  /** scan_jr_tables: the table edges of each block and the mid-block labels. */
  method ScanJrTables(img: Image, f: Function) returns (edges: map<int, seq<int>>, extra: set<int>)
    requires f.Valid()
    ensures forall b :: b in edges <==> IsLeader(img, f, b) && TableTargets(img, f, BlockAt(img, f, b).exit) != []
    ensures forall b :: b in edges ==> edges[b] == TableTargets(img, f, BlockAt(img, f, b).exit)
    ensures forall a :: a in extra <==> ExtraLabel(img, f, a)
  {
    hide IsLeader, BlockAt, TableTargets, StrictlyIncreasing, LeadersFrom;
    edges, extra := map[], {};
    var order := Leaders(img, f);
    LeadersFromMembers(img, f, f.WalkLo());
    LeadersFromIncreasing(img, f, f.WalkLo());
    var k := 0;
    while k < |order|
      invariant 0 <= k <= |order|
      invariant forall b :: b in edges <==> b in order[..k] && TableTargets(img, f, BlockAt(img, f, b).exit) != []
      invariant forall b :: b in edges ==> edges[b] == TableTargets(img, f, BlockAt(img, f, b).exit)
      invariant forall a :: a in extra <==>
                  !IsLeader(img, f, a)
                  && exists b :: b in order[..k] && a in TableTargets(img, f, BlockAt(img, f, b).exit)
    {
      var b := order[k];
      var targets := CollectTargets(img, f, BlockAt(img, f, b).exit);
      if targets != [] {
        edges := edges[b := targets];
      }
      extra := extra + set a | a in targets && !IsLeader(img, f, a);
      assert order[..k + 1] == order[..k] + [b];
      k := k + 1;
    }
    assert order[..k] == order;
    forall b | IsLeader(img, f, b) ensures b in order {
      LeaderBound(img, f, b);
    }
  }

  method CollectTargets(img: Image, f: Function, exit: ControlFlowInstr) returns (r: seq<int>)
    ensures r == TableTargets(img, f, exit)
  {
    hide FieldsOf, FindTable, RamToRom, Join, TableEntry;
    r := [];
    if exit.kind != JumpRegister {
      return;
    }
    var t := ScanForTable(img, exit.address, FieldsOf(exit.word).rs, f.WalkLo());
    if t == None {
      return;
    }
    var i := 0;
    while i < t.value.count
      invariant 0 <= i
      invariant r + TargetsFrom(img, f, t.value, i) == TargetsFrom(img, f, t.value, 0)
      decreases t.value.count - i
    {
      var e := TableEntry(img, t.value, i);
      ghost var before := r;
      if e.Some? {
        var rom := RamToRom(img, e.value);
        if f.InRange(rom) {
          r := r + [rom];
        }
      }
      assert r + TargetsFrom(img, f, t.value, i + 1) == before + TargetsFrom(img, f, t.value, i);
      i := i + 1;
    }
  }

  // ---- cycle charges ----

  function Readable(img: Image, a: int): int {
    if img.ReadWord(a).Some? then 1 else 0
  }

  /** Instructions from `x` to the block's end, up to the first unreadable one; each costs
      one cycle. */
  function CountFrom(img: Image, x: int, end: int): nat
    decreases end - x
  {
    if x > end || img.ReadWord(x) == None then 0 else 1 + CountFrom(img, x + 4, end)
  }

  predicate DelaySlotOutside(b: BasicBlock) {
    b.exit.hasDelaySlot && b.exit.kind != NoTransfer && b.exit.address == b.end
  }

  predicate DelaySlotInside(b: BasicBlock) {
    b.exit.hasDelaySlot && b.exit.kind != NoTransfer && b.exit.address < b.end
  }

  /** What a block charges at its leader: its instructions, and the delay slot it executes
      from beyond its end. */
  function BlockCycles(img: Image, b: BasicBlock): nat {
    CountFrom(img, b.start, b.end) + (if DelaySlotOutside(b) then Readable(img, b.end + 4) else 0)
  }

  /** partial_block_cycle_count: an entry between a block's first and last instruction is
      charged the rest of the block. */
  function PartialCount(img: Image, f: Function, a: int): nat {
    if IsLeader(img, f, a) || !f.InRange(a) || !Aligned(a) then 0
    else
      var b := BlockStart(img, f, a);
      if b < a <= BlockEnd(img, f, b) then (BlockEnd(img, f, b) - a) / 4 + 1 else 0
  }

  function MidBlockCharge(c: Context, a: int): nat {
    if c.blockMode then PartialCount(c.img, c.f, a) else 0
  }

  // ---- translate_basic_block ----

  /** The cases of a table's switch: one per distinct translated target that has a label. */
  function CasesFrom(c: Context, t: Table, i: int, seen: set<int>): seq<Case>
    decreases t.count - i
  {
    if i >= t.count then []
    else
      var e := TableEntry(c.img, t, i);
      if e == None then CasesFrom(c, t, i + 1, seen)
      else
        var rom: int := RamToRom(c.img, e.value);
        (if rom !in seen && HasLabel(c.img, c.f, rom) then [Case(e.value, MidBlockCharge(c, rom), rom)] else [])
          + CasesFrom(c, t, i + 1, seen + {rom})
  }

  function ArmTo(c: Context, a: Word): Arm {
    if IsLeader(c.img, c.f, a) then GotoArm(a) else PublishArm(a)
  }

  /** bltzal, bgezal. */
  predicate BranchLinks(f: Fields) {
    f.op == 0x01 && (f.rt == 0x10 || f.rt == 0x11)
  }

  function LinkBefore(exit: ControlFlowInstr): seq<Stmt> {
    var f := FieldsOf(exit.word);
    match exit.kind
    case JumpLink => [SetLink(31, Wrap(exit.address + 8))]
    case JumpLinkReg => if f.rd != 0 then [SetLink(f.rd, Wrap(exit.address + 8))] else []
    case Branch => if BranchLinks(f) then [SetLink(31, Wrap(exit.address + 8))] else []
    case _ => []
  }

  /** The delay slot, before the transfer; a branch saves its condition first. */
  function DelaySlot(img: Image, exit: ControlFlowInstr): seq<Stmt> {
    var f := FieldsOf(exit.word);
    var w := img.ReadWord(exit.address + 4);
    if !exit.hasDelaySlot || w == None then []
    else
      var s := Translate.TranslateInstruction(FieldsOf(w.value));
      if exit.isLikely then [PerformIf(f, s)]
      else (if exit.kind == Branch then [SaveCond(f)] else []) + [Perform(s)]
  }

  predicate CondSaved(img: Image, exit: ControlFlowInstr) {
    exit.kind == Branch && exit.hasDelaySlot && !exit.isLikely && img.ReadWord(exit.address + 4).Some?
  }

  function BranchExit(c: Context, b: BasicBlock): seq<Stmt> {
    var f := FieldsOf(b.exit.word);
    var taken := if |b.successors| == 2 then GotoArm(b.successors[0]) else ArmTo(c, b.exit.target);
    var notTaken := if |b.successors| == 2 then GotoArm(b.successors[1]) else ArmTo(c, Wrap(b.exit.address + 8));
    (if BranchLinks(f) then [SetLink(31, Wrap(b.exit.address + 8))] else [])
      + [if CondSaved(c.img, b.exit) then IfSaved(taken, notTaken) else IfNow(f, taken, notTaken)]
  }

  function JumpExit(b: BasicBlock): seq<Stmt> {
    if b.successors != [] then [Goto(b.successors[0])]
    else if b.exit.target != 0 then [Publish(b.exit.target)]
    else []
  }

  function JumpRegisterExit(c: Context, b: BasicBlock): seq<Stmt> {
    var r := FieldsOf(b.exit.word).rs;
    var t := TableOf(c.img, c.f, b.exit);
    if t.Some? && CasesFrom(c, t.value, 0, {}) != [] then [SwitchOn(r, CasesFrom(c, t.value, 0, {}))]
    else [PublishReg(r)]
  }

  function JumpLinkRegExit(b: BasicBlock): seq<Stmt> {
    var f := FieldsOf(b.exit.word);
    [SaveTarget(f.rs)] + (if f.rd != 0 then [SetLink(f.rd, Wrap(b.exit.address + 8))] else []) + [PublishSaved]
  }

  function TransferExit(c: Context, b: BasicBlock): seq<Stmt> {
    match b.exit.kind
    case Branch => BranchExit(c, b)
    case Jump => JumpExit(b)
    case Return => [PublishReg(31)]
    case JumpRegister => JumpRegisterExit(c, b)
    case JumpLink => [SetLink(31, Wrap(b.exit.address + 8)), Publish(b.exit.target)]
    case JumpLinkReg => JumpLinkRegExit(b)
    case NoTransfer => []
  }

  /** Everything emitted for the transfer that ends a block. */
  function ExitCode(c: Context, b: BasicBlock): seq<Stmt> {
    LinkBefore(b.exit) + DelaySlot(c.img, b.exit) + TransferExit(c, b)
  }

  function ExitAddress(b: BasicBlock): int {
    if DelaySlotInside(b) then b.end - 4 else b.end
  }

  /** After the last instruction: fall into the next label, or call the piece behind. */
  function FallThrough(c: Context, b: BasicBlock): seq<Stmt> {
    if b.exit.kind == NoTransfer && b.successors == [] && b.end + 4 in c.known && b.end + 4 < WORD_LIMIT
      && b.end + 4 >= 0
    then [CallNext(b.end + 4), ReturnStmt]
    else []
  }

  function InlineLabel(c: Context, b: BasicBlock, x: int): seq<Stmt> {
    if x != b.start && ExtraLabel(c.img, c.f, x) then [Label(x)] else []
  }

  function InstructionCode(c: Context, b: BasicBlock, x: int, w: Word): seq<Stmt> {
    if !IsControlFlow(FieldsOf(w)) then [Perform(Translate.TranslateInstruction(FieldsOf(w)))]
    else if x == ExitAddress(b) then ExitCode(c, b)
    else []
  }

  /** The emission loop has passed every instruction it emits by itself. */
  predicate LoopDone(img: Image, b: BasicBlock, x: int) {
    x > b.end || img.ReadWord(x) == None || (DelaySlotInside(b) && x == b.end)
  }

  /** Code from address `x` of the block to its end. */
  function CodeFrom(c: Context, b: BasicBlock, x: int): seq<Stmt>
    decreases b.end - x
  {
    if LoopDone(c.img, b, x) then FallThrough(c, b)
    else InlineLabel(c, b, x) + InstructionCode(c, b, x, c.img.ReadWord(x).value) + CodeFrom(c, b, x + 4)
  }

  function ChargeCode(c: Context, b: BasicBlock): seq<Stmt> {
    if c.blockMode && BlockCycles(c.img, b) > 0 then [Charge(BlockCycles(c.img, b))] else []
  }

  function BlockCode(c: Context, b: BasicBlock): seq<Stmt> {
    [Label(b.start)] + ChargeCode(c, b) + CodeFrom(c, b, b.start)
  }

  /** translate_basic_block: the emission loop, appending statement by statement. */
  method TranslateBasicBlock(c: Context, b: BasicBlock) returns (code: seq<Stmt>)
    ensures code == BlockCode(c, b)
  {
    hide ExtraLabel, ExitCode, Translate.TranslateInstruction, FieldsOf, FallThrough, BlockCycles, IsControlFlow,
         DelaySlotInside, ExitAddress, Join, CodeFrom;
    code := [Label(b.start)];
    if c.blockMode && BlockCycles(c.img, b) > 0 {
      code := code + [Charge(BlockCycles(c.img, b))];
    }
    var x := b.start;
    while x <= b.end && c.img.ReadWord(x).Some? && !(DelaySlotInside(b) && x == b.end)
      invariant code + CodeFrom(c, b, x) == BlockCode(c, b)
      decreases b.end - x
    {
      ghost var before := code;
      CodeGoesOn(c, b, x);
      var w := c.img.ReadWord(x).value;
      if x != b.start && ExtraLabel(c.img, c.f, x) {
        code := code + [Label(x)];
      }
      if !IsControlFlow(FieldsOf(w)) {
        code := code + [Perform(Translate.TranslateInstruction(FieldsOf(w)))];
      } else if x == ExitAddress(b) {
        code := code + ExitCode(c, b);
      }
      Appended(before, InlineLabel(c, b, x), InstructionCode(c, b, x, w), CodeFrom(c, b, x + 4), code);
      x := x + 4;
    }
    CodeStops(c, b, x);
    code := code + FallThrough(c, b);
  }

  lemma CodeGoesOn(c: Context, b: BasicBlock, x: int)
    requires !LoopDone(c.img, b, x)
    ensures CodeFrom(c, b, x)
            == InlineLabel(c, b, x) + InstructionCode(c, b, x, c.img.ReadWord(x).value) + CodeFrom(c, b, x + 4)
  {
    hide InlineLabel, InstructionCode, FallThrough;
  }

  lemma CodeStops(c: Context, b: BasicBlock, x: int)
    requires LoopDone(c.img, b, x)
    ensures CodeFrom(c, b, x) == FallThrough(c, b)
  {
    hide InlineLabel, InstructionCode, FallThrough;
  }

  lemma Appended(before: seq<Stmt>, mark: seq<Stmt>, insn: seq<Stmt>, rest: seq<Stmt>, after: seq<Stmt>)
    requires after == before + mark + insn
    ensures after + rest == before + (mark + insn + rest)
  {
  }

  // ---- whole functions ----

  /** The code of the live blocks from address `x` on, in address order. */
  function BodyFrom(c: Context, live: set<int>, x: int): seq<Stmt>
    decreases c.f.end - x
  {
    if x >= c.f.end then []
    else (if IsLeader(c.img, c.f, x) && x in live then BlockCode(c, BlockAt(c.img, c.f, x)) else [])
           + BodyFrom(c, live, x + 4)
  }

  /** The return point a block registers while its call is translated: only when the
      return point is in the function. */
  function CallContinuation(b: BasicBlock): seq<int> {
    if (b.exit.kind == JumpLink || b.exit.kind == JumpLinkReg) && b.successors != [] then [b.exit.address + 8] else []
  }

  function CallContinuations(c: Context, live: set<int>, x: int): seq<int>
    decreases c.f.end - x
  {
    if x >= c.f.end then []
    else (if IsLeader(c.img, c.f, x) && x in live then CallContinuation(BlockAt(c.img, c.f, x)) else [])
           + CallContinuations(c, live, x + 4)
  }

  /** Every live leader that is not dispatched as an entry. */
  function LeaderContinuations(c: Context, live: set<int>, entries: set<int>, x: int): seq<int>
    decreases c.f.end - x
  {
    if x >= c.f.end then []
    else (if IsLeader(c.img, c.f, x) && x in live && x !in entries then [x] else [])
           + LeaderContinuations(c, live, entries, x + 4)
  }

  function Continuations(c: Context, live: set<int>, entries: set<int>): seq<int> {
    CallContinuations(c, live, c.f.WalkLo()) + LeaderContinuations(c, live, entries, c.f.WalkLo())
  }

  /** One case per distinct continuation. */
  function ContinuationCases(c: Context, conts: seq<int>, seen: set<int>, charged: bool): seq<Case> {
    if conts == [] then []
    else if conts[0] in seen then ContinuationCases(c, conts[1..], seen, charged)
    else [Case(Wrap(conts[0]), if charged then MidBlockCharge(c, conts[0]) else 0, conts[0])]
           + ContinuationCases(c, conts[1..], seen + {conts[0]}, charged)
  }

  function EntryCode(c: Context, conts: seq<int>, charged: bool, overlay: bool): seq<Stmt> {
    if conts == [] then []
    else [EntrySwitch(ContinuationCases(c, conts, {}, charged), overlay, c.f.start)]
  }

  function LastLeader(c: Context): int {
    BlockStart(c.img, c.f, c.f.end - 4)
  }

  /** The final block ends without a transfer, or branches only out of the function. */
  predicate NeedsFallThrough(b: BasicBlock) {
    b.exit.kind == NoTransfer || ((b.exit.kind == Branch || b.exit.kind == Jump) && b.successors == [])
  }

  /** generate_function's trailing call; analyze_function records no predecessors, so only
      an entry block counts as reachable. */
  function FunctionTail(c: Context): seq<Stmt> {
    var last := LastLeader(c);
    if c.f.end as int in c.known && NeedsFallThrough(BlockAt(c.img, c.f, last)) && last == c.f.WalkLo()
    then [CallNext(c.f.end)] else []
  }

  function GroupTail(c: Context, live: set<int>): seq<Stmt> {
    var last := LastLeader(c);
    if c.f.end as int in c.known && last in live && NeedsFallThrough(BlockAt(c.img, c.f, last))
    then [CallNext(c.f.end)] else []
  }

  function AllBlocks(c: Context): set<int> {
    set a | c.f.WalkLo() <= a < c.f.end && IsLeader(c.img, c.f, a)
  }

  /** generate_function: entry switch, every block, trailing call. */
  function FunctionText(c: Context, overlay: bool): seq<Stmt> {
    var live := AllBlocks(c);
    EntryCode(c, Continuations(c, live, {c.f.start as int}), true, overlay)
      + BodyFrom(c, live, c.f.WalkLo()) + FunctionTail(c)
  }

  /** generate_alias_group: the shared body of a host's aliases. */
  function GroupText(c: Context, entries: seq<Word>, live: set<int>): seq<Stmt> {
    var starts := set e | e in entries :: e as int;
    EntryCode(c, Continuations(c, live, starts), false, false)
      + [EntryGoto(entries)]
      + BodyFrom(c, live, c.f.WalkLo()) + GroupTail(c, live)
  }

  /** One wrapper per alias. */
  function WrapperText(host: Word, entry: Word): seq<Stmt> {
    [CallBody(host, entry), ReturnStmt]
  }

  // ---- live blocks of an alias group ----

  /** The block whose instructions span `a`, if any. */
  function ContainingBlock(c: Context, a: int): Option<int> {
    if !c.f.InRange(a) then None
    else
      var b := BlockStart(c.img, c.f, a - a % 4);
      if a <= BlockEnd(c.img, c.f, b) then Some(b) else None
  }

  /** The edges followed: successors, and the blocks that hold table targets. */
  predicate Edge(c: Context, b: int, s: int) {
    var blk := BlockAt(c.img, c.f, b);
    s in blk.successors || SomeHeldIn(c, TableTargets(c.img, c.f, blk.exit), s)
  }

  /** One of `targets` lies in block `s`. */
  predicate SomeHeldIn(c: Context, targets: seq<int>, s: int) {
    exists t :: t in targets && ContainingBlock(c, t) == Some(s)
  }

  ghost predicate ClosedUnderEdges(c: Context, live: set<int>) {
    forall b, s {:trigger Edge(c, b, s)} :: b in live && Edge(c, b, s) ==> s in live
  }

  ghost predicate HoldsEntries(c: Context, entries: seq<Word>, live: set<int>) {
    forall e :: e in entries && ContainingBlock(c, e).Some? ==> ContainingBlock(c, e).value in live
  }

  /** All work items are blocks, and every edge out of `live` leads into it or is pending. */
  ghost predicate Pending(c: Context, live: set<int>, work: seq<int>) {
    && (forall b :: b in live || b in work ==> IsLeader(c.img, c.f, b))
    && (forall b, s {:trigger Edge(c, b, s)} :: b in live && Edge(c, b, s) ==> s in live || s in work)
  }

  /** Anything closed that holds the entries holds what has been reached. */
  ghost predicate Least(c: Context, entries: seq<Word>, live: set<int>, work: seq<int>) {
    forall t: set<int> {:trigger ClosedUnderEdges(c, t)} ::
      ClosedUnderEdges(c, t) && HoldsEntries(c, entries, t) ==> live <= t && forall b :: b in work ==> b in t
  }

  lemma ContainingIsLeader(c: Context, a: int)
    requires c.f.Valid() && ContainingBlock(c, a).Some?
    ensures IsLeader(c.img, c.f, ContainingBlock(c, a).value)
  {
    hide IsLeader, BlockStart, BlockEnd;
    BlockStartIsLast(c.img, c.f, a - a % 4);
  }

  lemma EdgeIsLeader(c: Context, b: int, s: int)
    requires c.f.Valid() && IsLeader(c.img, c.f, b) && Edge(c, b, s)
    ensures IsLeader(c.img, c.f, s)
  {
    hide IsLeader, BlockAt, ContainingBlock, TableTargets, NextAddresses;
    SuccessorsExact(c.img, c.f, b, s);
    var blk := BlockAt(c.img, c.f, b);
    if s !in blk.successors {
      var t :| t in TableTargets(c.img, c.f, blk.exit) && ContainingBlock(c, t) == Some(s);
      ContainingIsLeader(c, t);
    }
  }

  /** The least set of blocks that holds the entries and is closed under edges. */
  ghost function LiveSet(c: Context, entries: seq<Word>): set<int> {
    set b | b in AllBlocks(c) &&
            forall t: set<int> {:trigger ClosedUnderEdges(c, t)} ::
              ClosedUnderEdges(c, t) && HoldsEntries(c, entries, t) ==> b in t
  }

  /** The work list of generate_alias_group: the least set of blocks that holds the
      entries and is closed under edges. */
  method LiveBlocks(c: Context, entries: seq<Word>) returns (live: set<int>)
    requires c.f.Valid()
    ensures forall b :: b in live ==> IsLeader(c.img, c.f, b)
    ensures ClosedUnderEdges(c, live) && HoldsEntries(c, entries, live)
    ensures live == LiveSet(c, entries)
  {
    hide IsLeader, ContainingBlock, Edge, BlockAt, TableTargets, ClosedUnderEdges, LiveSet;
    live := {};
    var work := [];
    var k := 0;
    while k < |entries|
      invariant 0 <= k <= |entries|
      invariant forall b :: b in work ==> IsLeader(c.img, c.f, b)
      invariant forall e :: e in entries[..k] && ContainingBlock(c, e).Some? ==> ContainingBlock(c, e).value in work
      invariant Least(c, entries, live, work)
    {
      var eb := ContainingBlock(c, entries[k]);
      if eb.Some? {
        ContainingIsLeader(c, entries[k]);
        work := work + [eb.value];
      }
      assert entries[..k + 1] == entries[..k] + [entries[k]];
      k := k + 1;
    }
    assert entries[..k] == entries;
    while work != []
      invariant Pending(c, live, work)
      invariant forall e :: e in entries && ContainingBlock(c, e).Some? ==>
                  ContainingBlock(c, e).value in live || ContainingBlock(c, e).value in work
      invariant Least(c, entries, live, work)
      decreases AllBlocks(c) - live, |work|
    {
      var b := work[|work| - 1];
      assert work == work[..|work| - 1] + [b];
      work := work[..|work| - 1];
      if b !in live {
        LeaderBound(c.img, c.f, b);
        var targets := EdgesOf(c, b);
        live := live + {b};
        work := work + targets;
        forall t: set<int> | ClosedUnderEdges(c, t) && HoldsEntries(c, entries, t)
          ensures live <= t && forall s :: s in work ==> s in t
        {
          ClosedStep(c, t, b);
        }
      }
    }
    ClosedAtEnd(c, live);
    LeastIsLiveSet(c, entries, live);
  }

  lemma LeastIsLiveSet(c: Context, entries: seq<Word>, live: set<int>)
    requires forall b :: b in live ==> IsLeader(c.img, c.f, b)
    requires ClosedUnderEdges(c, live) && HoldsEntries(c, entries, live) && Least(c, entries, live, [])
    ensures live == LiveSet(c, entries)
  {
    hide IsLeader, Edge, HoldsEntries;
    forall b | b in live ensures b in AllBlocks(c) {
      LeaderBound(c.img, c.f, b);
    }
  }

  lemma ClosedStep(c: Context, t: set<int>, b: int)
    requires ClosedUnderEdges(c, t) && b in t
    ensures forall s :: Edge(c, b, s) ==> s in t
  {
    hide Edge;
  }

  lemma ClosedAtEnd(c: Context, live: set<int>)
    requires Pending(c, live, [])
    ensures ClosedUnderEdges(c, live)
  {
    hide Edge;
  }

  /** The blocks one block leads to, in the order they are pushed. */
  method EdgesOf(c: Context, b: int) returns (targets: seq<int>)
    requires c.f.Valid() && IsLeader(c.img, c.f, b)
    ensures forall s :: s in targets <==> Edge(c, b, s)
    ensures forall s :: s in targets ==> IsLeader(c.img, c.f, s)
  {
    hide IsLeader, ContainingBlock, BlockAt, NextAddresses, TableTargets, SomeHeldIn;
    var blk := BlockAt(c.img, c.f, b);
    forall s ensures s in blk.successors ==> IsLeader(c.img, c.f, s) {
      SuccessorsExact(c.img, c.f, b, s);
    }
    targets := blk.successors;
    var tables := CollectTargets(c.img, c.f, blk.exit);
    NoneHeldYet(c);
    var k := 0;
    while k < |tables|
      invariant 0 <= k <= |tables|
      invariant forall s :: s in targets <==> s in blk.successors || SomeHeldIn(c, tables[..k], s)
      invariant forall s :: s in targets ==> IsLeader(c.img, c.f, s)
    {
      var cb := ContainingBlock(c, tables[k]);
      assert tables[..k + 1] == tables[..k] + [tables[k]];
      OneMoreHeld(c, tables[..k], tables[k]);
      if cb.Some? {
        ContainingIsLeader(c, tables[k]);
        targets := targets + [cb.value];
      }
      k := k + 1;
    }
    assert tables[..k] == tables;
  }

  lemma NoneHeldYet(c: Context)
    ensures forall s :: !SomeHeldIn(c, [], s)
  {
  }

  lemma OneMoreHeld(c: Context, targets: seq<int>, t: int)
    ensures forall s :: SomeHeldIn(c, targets + [t], s) <==>
            SomeHeldIn(c, targets, s) || ContainingBlock(c, t) == Some(s)
  {
    hide ContainingBlock;
    forall s
      ensures SomeHeldIn(c, targets + [t], s) <==> SomeHeldIn(c, targets, s) || ContainingBlock(c, t) == Some(s)
    {
      assert t in targets + [t];
      if SomeHeldIn(c, targets, s) {
        var u :| u in targets && ContainingBlock(c, u) == Some(s);
        assert u in targets + [t];
      }
    }
  }
}
