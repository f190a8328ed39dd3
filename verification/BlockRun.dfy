/** From any label of a good block the emitted code does what the reference machine does
    up to the next label, call or return, and charges a cycle for each instruction. */
module BlockRun {
  import opened Words
  import opened Isa
  import opened ControlFlow
  import opened JumpTables
  import opened Emit
  import opened Runtime
  import opened Labels
  import opened Reference
  import opened Preserve
  import opened Exits
  import Translate

  // ---- where transfers stand in a good block ----

  lemma InstructionIsGood(c: Context, a: int, x: int)
    requires GoodCode(c, a) && a <= x <= BlockEnd(c.img, c.f, a) && Aligned(x)
    ensures GoodInstruction(c.img, x)
  {
  }

  lemma GoodIsReadable(img: Image, x: int)
    requires GoodInstruction(img, x)
    ensures img.ReadWord(x).Some?
    ensures TransferAt(img, x) ==> !TransferAt(img, x + 4)
  {
    hide FieldsOf, Decode, Translate.ClobbersZero, AnalyzeInstruction;
    if TransferAt(img, x) {
      PlainIsNotControlFlow(FieldsOf(img.ReadWord(x + 4).value));
    }
  }

  /** A transfer the loop reaches is the block's exit. */
  lemma ExitHere(c: Context, a: int, x: int)
    requires c.f.Valid() && IsLeader(c.img, c.f, a) && GoodCode(c, a)
    requires EmittedAt(c.img, BlockAt(c.img, c.f, a), x) && TransferAt(c.img, x)
    ensures var b := BlockAt(c.img, c.f, a);
            && b.exit.address == x && x == ExitAddress(b) && b.exit.kind != CfKind.NoTransfer
            && AtTransfer(c.img, b.exit)
            && (x == b.end <==> DelaySlotOutside(b)) && (x != b.end ==> x == b.end - 4)
  {
    hide IsLeader, FieldsOf, AnalyzeInstruction, BlockAt, BlockEnd, GoodCode, GoodTransfer, TransferAt, IsControlFlow,
         EmittedAt, Aligned;
    var b := BlockAt(c.img, c.f, a);
    BlockStartsAt(c, a);
    LeaderAligned(c.img, c.f, a);
    EmittedBounds(c, a, x);
    InstructionIsGood(c, a, x);
    if x != a {
      AlignedApart(a, x);
      AlignedNeighbours(x);
      InstructionIsGood(c, a, x - 4);
      GoodIsReadable(c.img, x - 4);
    }
    TransferAtBlockEnd(c.img, c.f, a, x);
    ExitIsTheTransfer(c.img, c.f, a, x);
    TransferWord(c.img, x);
    TransferHasKind(x, c.img.ReadWord(x).value);
  }

  lemma TransferWord(img: Image, x: int)
    requires TransferAt(img, x)
    ensures img.ReadWord(x).Some? && IsControlFlow(FieldsOf(img.ReadWord(x).value))
  {
  }

  lemma EmittedBounds(c: Context, a: int, x: int)
    requires c.f.Valid() && IsLeader(c.img, c.f, a) && EmittedAt(c.img, BlockAt(c.img, c.f, a), x)
    ensures var b := BlockAt(c.img, c.f, a);
            && a <= x <= b.end && b.end + 4 <= c.f.end && x + 8 <= WORD_LIMIT && c.img.ReadWord(x).Some?
            && Aligned(x) && Aligned(x - a) && Aligned(b.end - x) && Aligned(b.end - a)
  {
    hide IsLeader, BlockAt, BlockEnd;
    BlockShape(c.img, c.f, a);
    BlockStartsAt(c, a);
    var b := BlockAt(c.img, c.f, a);
    EmittedFacts(c.img, b, x);
    AlignedSums(a, x, b.end);
  }

  lemma EmittedFacts(img: Image, b: BasicBlock, x: int)
    requires EmittedAt(img, b, x)
    ensures b.start <= x <= b.end && Aligned(x - b.start) && img.ReadWord(x).Some?
  {
  }

  lemma AlignedSums(a: int, x: int, e: int)
    requires Aligned(a) && Aligned(x - a) && Aligned(e)
    ensures Aligned(x) && Aligned(e - x) && Aligned(e - a)
  {
  }

  /** Reaching a plain instruction, the exit is not it, nor the instruction before a slot here. */
  lemma PlainIsNotExit(c: Context, a: int, x: int)
    requires c.f.Valid() && IsLeader(c.img, c.f, a) && !TransferAt(c.img, x)
    ensures var b := BlockAt(c.img, c.f, a);
            && (b.exit.kind != CfKind.NoTransfer ==>
                 b.exit.hasDelaySlot && b.exit.address != x && (b.exit.address == b.end || b.exit.address == b.end - 4))
  {
    hide IsLeader, BlockAt, FieldsOf, AnalyzeInstruction, TransferAt, IsControlFlow, Aligned;
    BlockStartsAt(c, a);
    ExitKind(c.img, c.f, a);
    var b := BlockAt(c.img, c.f, a);
    if b.exit.kind != CfKind.NoTransfer {
      TransferWord(c.img, b.exit.address);
      TransferHasKind(b.exit.address, c.img.ReadWord(b.exit.address).value);
    }
  }

  /** The loop goes on to the next instruction when that is readable and no slot. */
  lemma EmittedNext(img: Image, b: BasicBlock, x: int)
    requires EmittedAt(img, b, x) && x != b.end && Aligned(b.end - b.start) && img.ReadWord(x + 4).Some?
    requires !(DelaySlotInside(b) && x + 4 == b.end)
    ensures x + 4 <= b.end && EmittedAt(img, b, x + 4)
  {
    hide DelaySlotInside;
    AlignedApart(x - b.start, b.end - b.start);
    forall y | b.start <= y <= x + 4 && Aligned(y - b.start) ensures img.ReadWord(y).Some? {
      if x < y {
        AlignedApart(x - b.start, y - b.start);
      }
    }
  }

  /** A plain instruction the loop reaches is followed by another one, or ends the block. */
  lemma PlainHere(c: Context, a: int, x: int)
    requires c.f.Valid() && IsLeader(c.img, c.f, a) && GoodCode(c, a)
    requires EmittedAt(c.img, BlockAt(c.img, c.f, a), x) && !TransferAt(c.img, x)
    ensures var b := BlockAt(c.img, c.f, a);
            && GoodPlain(c.img, x)
            && (x == b.end ==> b.exit.kind == CfKind.NoTransfer)
            && (x != b.end ==> x + 4 <= b.end && EmittedAt(c.img, b, x + 4))
  {
    hide IsLeader, BlockAt, BlockEnd, GoodCode, GoodTransfer, TransferAt, GoodPlain, EmittedAt, Aligned;
    BlockStartsAt(c, a);
    EmittedBounds(c, a, x);
    var b := BlockAt(c.img, c.f, a);
    InstructionIsGood(c, a, x);
    PlainIsNotExit(c, a, x);
    if x == b.end {
      LastIsNoSlot(c.img, b);
    } else {
      AlignedApart(x - a, b.end - a);
      AlignedNeighbours(x);
      InstructionIsGood(c, a, x + 4);
      GoodIsReadable(c.img, x + 4);
      EmittedNext(c.img, b, x);
    }
  }

  lemma LastIsNoSlot(img: Image, b: BasicBlock)
    requires EmittedAt(img, b, b.end)
    ensures !DelaySlotInside(b)
  {
  }

  // ---- how long, and how much ----

  /** Instructions from `x` to the next event of its block's code. */
  function StepsFrom(c: Context, b: BasicBlock, x: int): nat
    decreases b.end - x
  {
    if TransferAt(c.img, x) then 2
    else if x >= b.end || ExtraLabel(c.img, c.f, x + 4) then 1
    else 1 + StepsFrom(c, b, x + 4)
  }

  /** Instructions a block executes from `x` on, its outside delay slot included. */
  function Rest(b: BasicBlock, x: int): int {
    (b.end - x) / 4 + 1 + (if DelaySlotOutside(b) then 1 else 0)
  }

  /** Cycles charged ahead of the instructions behind label `t`. */
  function OwedAt(c: Context, t: int): int {
    if IsLeader(c.img, c.f, t) then 0 else Rest(BlockAt(c.img, c.f, HomeOf(c, t)), t)
  }

  function Owed(c: Context, e: Event): int {
    match e
    case Reached(t) => OwedAt(c, t)
    case Jumped(t) => OwedAt(c, t)
    case _ => 0
  }

  /** A case that lands in the middle of a block whose delay slot lies outside charges one
      cycle too few. */
  predicate ShortEntry(c: Context, t: int) {
    !IsLeader(c.img, c.f, t) && DelaySlotOutside(BlockAt(c.img, c.f, HomeOf(c, t)))
  }

  function Shortfall(c: Context, e: Event): int {
    if e.Jumped? && ShortEntry(c, e.dest) then 1 else 0
  }

  lemma EntryChargeIsOwed(c: Context, live: set<int>, t: int)
    requires c.f.Valid() && c.blockMode && LiveLabel(c, live, t)
    ensures EntryCharge(c, Jumped(t)) + Shortfall(c, Jumped(t)) == OwedAt(c, t)
  {
    hide IsLeader, BlockStart, BlockEnd, ExtraLabel, DelaySlotOutside;
    HomeContains(c, t);
    BlockShape(c.img, c.f, HomeOf(c, t));
  }

  lemma {:induction false} CountIsRest(img: Image, x: int, end: int)
    requires x <= end + 4 && Aligned(end - x)
    requires forall y :: x <= y <= end && Aligned(y - x) ==> img.ReadWord(y).Some?
    ensures CountFrom(img, x, end) == (end - x + 4) / 4
    decreases end - x
  {
    if x <= end {
      assert img.ReadWord(x).Some?;
      forall y | x + 4 <= y <= end && Aligned(y - (x + 4)) ensures img.ReadWord(y).Some? {
        assert Aligned(y - x);
      }
      CountIsRest(img, x + 4, end);
    }
  }

  // ---- from one instruction to the next event ----

  /** The outcome of running from `x`: the reference machine gets there in `n` steps, and
      the cycles charged, less what was charged ahead, are those `n`. */
  ghost predicate RunsTo(c: Context, live: set<int>, tail: seq<Stmt>, x: Word, h: Host, o: Outcome, n: nat,
                         ahead: int) {
    var m := RefRun(c.img, At(x, h.cpu), n);
    && m.Some? && Landed(c, live, tail, o, m.value)
    && (c.blockMode ==> o.h.cycles + Shortfall(c, o.event) + ahead == h.cycles + n + Owed(c, o.event))
  }

  /** What is left of the function's text behind block `b`. */
  function Behind(c: Context, live: set<int>, tail: seq<Stmt>, b: BasicBlock): seq<Stmt> {
    BodyFrom(c, live, b.end + 4) + tail
  }

  lemma ExitRuns(c: Context, live: set<int>, tail: seq<Stmt>, a: int, x: Word, rest: seq<Stmt>, h: Host)
    requires LiveBlock(c, live, a) && GoodBlock(c, a) && Clean(h)
    requires EmittedAt(c.img, BlockAt(c.img, c.f, a), x) && TransferAt(c.img, x) && NoOverflow(c.img, At(x, h.cpu), 2)
    ensures var b := BlockAt(c.img, c.f, a);
            RunsTo(c, live, tail, x, h, RunStmts(InstructionCode(c, b, x, c.img.ReadWord(x).value) + rest, h), 2,
              Rest(b, x))
  {
    hide IsLeader, BlockAt, BlockEnd, FieldsOf, ExitCode, GoodCode, CanonicalTable, ExtraLabel, ClosedUnderEdges,
         LabelsEmitted, RefRun, RunStmts, EmittedAt, DelaySlotOutside, AtTransfer, TransferAt, MidBlockCharge,
         ShortEntry, OwedAt, IsControlFlow, HomeOf, LiveLabel, NoOverflow;
    var b := BlockAt(c.img, c.f, a);
    ExitHere(c, a, x);
    TransferWord(c.img, x);
    ExitArrives(c, live, a, rest, h);
    var o := RunStmts(ExitCode(c, b) + rest, h);
    if o.event.Jumped? && c.blockMode {
      EntryChargeIsOwed(c, live, o.event.dest);
    }
  }

  /** The successors of a block that just ends: the next address, when it is in the function. */
  lemma NextOfPlainBlock(c: Context, a: int)
    requires c.f.Valid() && IsLeader(c.img, c.f, a) && BlockAt(c.img, c.f, a).exit.kind == CfKind.NoTransfer
    ensures var b := BlockAt(c.img, c.f, a);
            && (b.end + 4 < c.f.end ==> IsLeader(c.img, c.f, b.end + 4) && b.successors == [b.end + 4])
            && (b.end + 4 >= c.f.end ==> b.end + 4 == c.f.end && b.successors == [])
  {
    hide IsLeader, BlockEnd, ExitOf, KeepLeaders;
    BlockShape(c.img, c.f, a);
    var b := BlockAt(c.img, c.f, a);
    KeepTwo(c.img, c.f, 0, b.end + 4);
    if IsLeader(c.img, c.f, c.f.end) {
      LeaderBound(c.img, c.f, c.f.end);
    }
  }

  lemma RunLabel(t: int, rest: seq<Stmt>, h: Host)
    ensures RunStmts([Label(t)] + rest, h) == Outcome(Reached(t), rest, h)
  {
    hide RunStmts;
    RunCons(Label(t), rest, h);
  }

  lemma RunCallNext(a: Word, rest: seq<Stmt>, h: Host)
    ensures RunStmts([CallNext(a)] + rest, h) == Outcome(Called(a), rest, h)
  {
    hide RunStmts;
    RunCons(CallNext(a), rest, h);
  }

  /** A live block's code, as the text behind its label. */
  lemma BodyAtBlock(c: Context, live: set<int>, tail: seq<Stmt>, s: int)
    requires c.f.Valid() && IsLeader(c.img, c.f, s) && s in live
    ensures BodyFrom(c, live, s) + tail == [Label(s)] + ResumeText(c, live, tail, s)
  {
    hide IsLeader, BlockAt, ChargeCode, CodeFrom, BlockEnd, BodyFrom, ResumeCode, HomeOf;
    BodyFromBlock(c, live, s);
    LeaderHome(c, s);
    BlockStartsAt(c, s);
    var b := BlockAt(c.img, c.f, s);
    ResumeAtStart(c, b);
    TextsJoin(Label(s), ChargeCode(c, b), CodeFrom(c, b, s), BodyFrom(c, live, b.end + 4), tail);
  }

  lemma TextsJoin(mark: Stmt, charge: seq<Stmt>, code: seq<Stmt>, behind: seq<Stmt>, tail: seq<Stmt>)
    ensures [mark] + charge + code + behind + tail == [mark] + (charge + code + behind + tail)
  {
  }

  /** Falling off the end of a block: into the next label, into the function behind, or, when
      none starts there, out of the function. */
  lemma FallRuns(c: Context, live: set<int>, tail: seq<Stmt>, a: int, h: Host)
    requires LiveBlock(c, live, a) && TailFits(c, tail) && Clean(h)
    requires BlockAt(c.img, c.f, a).exit.kind == CfKind.NoTransfer
    ensures var b := BlockAt(c.img, c.f, a);
            var o := RunStmts(FallThrough(c, b) + Behind(c, live, tail, b), h);
            b.end + 4 <= c.f.end && Landed(c, live, tail, o, At(b.end + 4, h.cpu))
            && o.h == h && Owed(c, o.event) == 0 && !o.event.Jumped?
            && (o.event == Returned <==> b.end + 4 == c.f.end && c.f.end as int !in c.known)
  {
    hide IsLeader, BlockAt, BlockEnd, LabelsEmitted, ClosedUnderEdges, RunStmts, LiveLabel, BodyFrom, ResumeText,
         Rest;
    var b := BlockAt(c.img, c.f, a);
    NextOfPlainBlock(c, a);
    if b.end + 4 < c.f.end {
      SuccessorIsLive(c, live, a, b.end + 4);
      NextInLive(c, live, b.end + 4);
      BodyAtBlock(c, live, tail, b.end + 4);
      assert FallThrough(c, b) + Behind(c, live, tail, b) == Behind(c, live, tail, b);
      RunLabel(b.end + 4, ResumeText(c, live, tail, b.end + 4), h);
    } else if c.f.end as int in c.known {
      var rest := [ReturnStmt] + Behind(c, live, tail, b);
      assert FallThrough(c, b) + Behind(c, live, tail, b) == [CallNext(c.f.end)] + rest;
      RunCallNext(c.f.end, rest, h);
    } else {
      BodyEnds(c, live);
      assert EndsOpen(c, live) by { OpenHere(c, live, a); }
      assert FallThrough(c, b) + Behind(c, live, tail, b) == [];
      RunNothing(h);
    }
  }

  lemma OpenHere(c: Context, live: set<int>, a: int)
    requires LiveBlock(c, live, a) && BlockAt(c.img, c.f, a).exit.kind == CfKind.NoTransfer
    requires BlockAt(c.img, c.f, a).end + 4 == c.f.end
    ensures EndsOpen(c, live)
  {
    hide IsLeader, BlockAt, ClosedUnderEdges;
  }

  lemma BodyEnds(c: Context, live: set<int>)
    ensures BodyFrom(c, live, c.f.end) == []
  {
    hide BlockCode;
  }

  lemma RunNothing(h: Host)
    ensures RunStmts([], h) == Outcome(Returned, [], h)
  {
  }

  lemma NextInLive(c: Context, live: set<int>, s: int)
    requires LiveLabel(c, live, s) && HomeOf(c, s) == s
    ensures s in live
  {
  }

  /** The label of a table target inside block `a`, reached from above. */
  lemma LabelRuns(c: Context, live: set<int>, tail: seq<Stmt>, a: int, t: int, rest: seq<Stmt>, h: Host)
    requires LiveBlock(c, live, a) && Clean(h) && ExtraLabel(c.img, c.f, t)
    requires var b := BlockAt(c.img, c.f, a);
             && a < t <= b.end && Aligned(t - a) && c.img.ReadWord(t).Some?
             && rest == InstructionCode(c, b, t, c.img.ReadWord(t).value) + CodeFrom(c, b, t + 4) + Behind(c, live,
               tail, b)
    ensures var o := RunStmts([Label(t)] + rest, h);
            && o == Outcome(Reached(t), rest, h) && Landed(c, live, tail, o, At(t, h.cpu))
            && OwedAt(c, t) == Rest(BlockAt(c.img, c.f, a), t)
  {
    hide IsLeader, BlockAt, BlockEnd, LabelsEmitted, ClosedUnderEdges, RunStmts, BodyFrom, Rest, CodeFrom,
         InstructionCode, TableTarget;
    LeaderAligned(c.img, c.f, a);
    BlockShape(c.img, c.f, a);
    BlockStartsAt(c, a);
    BlocksTile(c.img, c.f, t, a);
    RunLabel(t, rest, h);
  }

  /** A plain instruction, then on. */
  lemma StepRuns(c: Context, live: set<int>, tail: seq<Stmt>, b: BasicBlock, x: Word, rest: seq<Stmt>, h: Host, n: nat,
                 ahead: int)
    requires GoodPlain(c.img, x) && x + 8 <= WORD_LIMIT && Clean(h) && !AtOverflow(c.img, At(x, h.cpu))
    requires var h' := h.(cpu := Exec(FieldsOf(c.img.ReadWord(x).value), h.cpu));
             RunsTo(c, live, tail, x + 4, h', RunStmts(rest, h'), n, ahead)
    ensures RunsTo(c, live, tail, x, h, RunStmts(InstructionCode(c, b, x, c.img.ReadWord(x).value) + rest, h), n + 1,
            ahead + 1)
  {
    hide Landed, RunStmts, FieldsOf, ExecInstr, Decode, InstructionCode, RefRun, Shortfall, Owed,
         Translate.DivOverflows;
    PlainStep(c, b, x, rest, h);
    RefRunSplit(c.img, At(x, h.cpu), 1, n);
  }

  lemma NothingYet(c: Context, live: set<int>, tail: seq<Stmt>, x: Word, h: Host, o: Outcome, ahead: int)
    requires Landed(c, live, tail, o, At(x, h.cpu)) && o.h == h && !o.event.Jumped? && Owed(c, o.event) == ahead
    ensures RunsTo(c, live, tail, x, h, o, 0, ahead)
  {
    hide Landed, Owed;
  }

  /** What follows the instruction before `x`, when the loop goes on at `x`. */
  lemma CodeAt(c: Context, a: int, x: int)
    requires EmittedAt(c.img, BlockAt(c.img, c.f, a), x) && x != a
    ensures var b := BlockAt(c.img, c.f, a);
            c.img.ReadWord(x).Some?
            && CodeFrom(c, b, x) == (if ExtraLabel(c.img, c.f, x) then [Label(x)] else [])
                                      + InstructionCode(c, b, x, c.img.ReadWord(x).value) + CodeFrom(c, b, x + 4)
  {
    hide ExtraLabel, InstructionCode, ExitOf, BlockEnd, KeepLeaders;
    assert c.img.ReadWord(x).Some?;
  }

  lemma CodeAtEnd(c: Context, b: BasicBlock)
    ensures CodeFrom(c, b, b.end + 4) == FallThrough(c, b)
  {
  }

  /** The code from the instruction at `x` of block `a` on runs as the reference does. */
  ghost predicate RunsOn(c: Context, live: set<int>, tail: seq<Stmt>, a: int, x: Word, h: Host) {
    var w := c.img.ReadWord(x);
    var b := BlockAt(c.img, c.f, a);
    && w.Some?
    && var code := InstructionCode(c, b, x, w.value) + CodeFrom(c, b, x + 4) + Behind(c, live, tail, b);
       RunsTo(c, live, tail, x, h, RunStmts(code, h), StepsFrom(c, b, x), Rest(b, x))
  }

  /** From the instruction at `x` of a good block to the next event. */
  lemma {:induction false} RunFrom(c: Context, live: set<int>, tail: seq<Stmt>, a: int, x: Word, h: Host)
    requires LiveBlock(c, live, a) && GoodBlock(c, a) && TailFits(c, tail) && Clean(h)
    requires EmittedAt(c.img, BlockAt(c.img, c.f, a), x)
    requires NoOverflow(c.img, At(x, h.cpu), StepsFrom(c, BlockAt(c.img, c.f, a), x))
    ensures RunsOn(c, live, tail, a, x, h)
    decreases BlockAt(c.img, c.f, a).end - x
  {
    hide IsLeader, BlockAt, BlockEnd, RunStmts, BodyFrom, InstructionCode, CodeFrom, FallThrough, LabelsEmitted,
         ClosedUnderEdges, ExtraLabel, CanonicalTable, GoodCode, GoodPlain, TransferAt, EmittedAt, Owed, Shortfall,
         RefRun, FieldsOf, Exec, Behind, RunsTo, Join, Rest, Clean, NoOverflow, AtOverflow, Landed, TailFits;
    var b := BlockAt(c.img, c.f, a);
    EmittedBounds(c, a, x);
    var w := c.img.ReadWord(x).value;
    var insn := InstructionCode(c, b, x, w);
    var behind := Behind(c, live, tail, b);
    var rest := CodeFrom(c, b, x + 4) + behind;
    assert insn + CodeFrom(c, b, x + 4) + behind == insn + rest;
    if TransferAt(c.img, x) {
      ExitRuns(c, live, tail, a, x, rest, h);
    } else {
      PlainHere(c, a, x);
      PlainKeepsClean(c.img, x, h);
      var h' := h.(cpu := Exec(FieldsOf(w), h.cpu));
      NoOverflowNow(c.img, At(x, h.cpu), StepsFrom(c, b, x));
      if x == b.end {
        CodeAtEnd(c, b);
        FallRuns(c, live, tail, a, h');
        NothingYet(c, live, tail, x + 4, h', RunStmts(rest, h'), 0);
        StepRuns(c, live, tail, b, x, rest, h, 0, 0);
        NoOutsideSlot(b);
      } else {
        RestStep(b, x);
        CodeAt(c, a, x + 4);
        var on := InstructionCode(c, b, x + 4, c.img.ReadWord(x + 4).value) + CodeFrom(c, b, x + 8) + behind;
        if ExtraLabel(c.img, c.f, x + 4) {
          LabelRuns(c, live, tail, a, x + 4, on, h');
          assert rest == [Label(x + 4)] + on;
          LabelOwed(c, x + 4);
          NothingYet(c, live, tail, x + 4, h', RunStmts(rest, h'), Rest(b, x + 4));
          StepRuns(c, live, tail, b, x, rest, h, 0, Rest(b, x + 4));
        } else {
          PlainRun(c.img, x, h.cpu);
          NoOverflowLater(c.img, At(x, h.cpu), 1, StepsFrom(c, b, x + 4));
          RunFrom(c, live, tail, a, x + 4, h');
          assert rest == on;
          StepRuns(c, live, tail, b, x, rest, h, StepsFrom(c, b, x + 4), Rest(b, x + 4));
        }
      }
    }
  }

  lemma RestStep(b: BasicBlock, x: int)
    ensures Rest(b, x) == Rest(b, x + 4) + 1
  {
  }

  lemma LabelOwed(c: Context, t: int)
    ensures Owed(c, Reached(t)) == OwedAt(c, t)
  {
  }

  lemma NoOutsideSlot(b: BasicBlock)
    requires b.exit.kind == CfKind.NoTransfer
    ensures Rest(b, b.end) == 1
  {
  }

  lemma PlainKeepsClean(img: Image, x: int, h: Host)
    requires GoodPlain(img, x) && Clean(h)
    ensures Clean(h.(cpu := Exec(FieldsOf(img.ReadWord(x).value), h.cpu)))
  {
    hide FieldsOf, Decode, ExecInstr, Translate.ClobbersZero;
    Translate.TranslationCorrect(FieldsOf(img.ReadWord(x).value), h.cpu);
  }

  // ---- from a label to the next event ----

  lemma StartIsEmitted(c: Context, a: int)
    requires c.f.Valid() && IsLeader(c.img, c.f, a) && GoodCode(c, a)
    ensures EmittedAt(c.img, BlockAt(c.img, c.f, a), a)
  {
    hide IsLeader, ExitOf, BlockEnd, KeepLeaders, GoodCode, GoodInstruction, TransferAt, AnalyzeInstruction;
    BlockShape(c.img, c.f, a);
    ExitKind(c.img, c.f, a);
    InstructionIsGood(c, a, a);
    GoodIsReadable(c.img, a);
  }

  lemma BlockReadable(c: Context, a: int)
    requires c.f.Valid() && IsLeader(c.img, c.f, a) && GoodCode(c, a)
    ensures forall y :: a <= y <= BlockEnd(c.img, c.f, a) && Aligned(y - a) ==> c.img.ReadWord(y).Some?
  {
    hide IsLeader, BlockEnd, GoodCode, GoodInstruction, TransferAt, Image.ReadWord, Aligned;
    LeaderAligned(c.img, c.f, a);
    forall y | a <= y <= BlockEnd(c.img, c.f, a) && Aligned(y - a) ensures c.img.ReadWord(y).Some? {
      AlignedSum(a, y);
      InstructionIsGood(c, a, y);
      GoodIsReadable(c.img, y);
    }
  }

  lemma AlignedSum(a: int, y: int)
    requires Aligned(a) && Aligned(y - a)
    ensures Aligned(y)
  {
  }

  lemma AlignedGap(a: int, e: int)
    requires Aligned(a) && Aligned(e)
    ensures Aligned(e - a) && Aligned(a - a)
  {
  }

  /** A block charges what it executes. */
  lemma BlockCyclesIsRest(c: Context, a: int)
    requires c.f.Valid() && IsLeader(c.img, c.f, a) && GoodCode(c, a)
    ensures BlockCycles(c.img, BlockAt(c.img, c.f, a)) == Rest(BlockAt(c.img, c.f, a), a) > 0
  {
    hide IsLeader, BlockAt, BlockEnd, GoodCode, GoodInstruction, TransferAt, CountFrom, Image.ReadWord, Aligned,
         DelaySlotOutside;
    var b := BlockAt(c.img, c.f, a);
    BlockStartsAt(c, a);
    BlockShape(c.img, c.f, a);
    BlockReadable(c, a);
    AlignedGap(a, b.end);
    CountIsRest(c.img, a, b.end);
    if DelaySlotOutside(b) {
      OutsideExit(b);
      ExitKind(c.img, c.f, a);
      InstructionIsGood(c, a, b.end);
      SlotReadable(c.img, b.end);
    }
  }

  lemma OutsideExit(b: BasicBlock)
    requires DelaySlotOutside(b)
    ensures b.exit.kind != CfKind.NoTransfer && b.exit.address == b.end
  {
  }

  lemma SlotReadable(img: Image, x: int)
    requires GoodInstruction(img, x) && TransferAt(img, x)
    ensures img.ReadWord(x + 4).Some?
  {
    hide FieldsOf, Decode, TransferAt;
  }

  lemma RunCharge(c: Context, b: BasicBlock, rest: seq<Stmt>, h: Host)
    ensures RunStmts(ChargeCode(c, b) + rest, h)
            == RunStmts(rest, if c.blockMode then h.(cycles := h.cycles + BlockCycles(c.img, b)) else h)
  {
    hide BlockCycles, RunStmts;
    if ChargeCode(c, b) == [] {
      assert ChargeCode(c, b) + rest == rest;
      assert c.blockMode ==> h.(cycles := h.cycles + BlockCycles(c.img, b)) == h;
    } else {
      RunChargeStmt(BlockCycles(c.img, b), rest, h);
    }
  }

  lemma ChargeEffect(n: nat, h: Host)
    ensures Execute(Charge(n), h) == Goes(h.(cycles := h.cycles + n))
  {
  }

  lemma RunChargeStmt(n: nat, rest: seq<Stmt>, h: Host)
    ensures RunStmts([Charge(n)] + rest, h) == RunStmts(rest, h.(cycles := h.cycles + n))
  {
    hide RunStmts, Execute;
    ChargeEffect(n, h);
    RunCons(Charge(n), rest, h);
  }

  lemma CodeAtStart(c: Context, a: int)
    requires EmittedAt(c.img, BlockAt(c.img, c.f, a), a)
    ensures var b := BlockAt(c.img, c.f, a);
            c.img.ReadWord(a).Some?
            && CodeFrom(c, b, a) == InstructionCode(c, b, a, c.img.ReadWord(a).value) + CodeFrom(c, b, a + 4)
  {
    hide ExtraLabel, InstructionCode, ExitOf, BlockEnd, KeepLeaders;
    assert c.img.ReadWord(a).Some?;
  }

  lemma LeaderRuns(c: Context, live: set<int>, tail: seq<Stmt>, a: Word, h: Host)
    requires LiveBlock(c, live, a) && GoodBlock(c, a) && TailFits(c, tail) && Clean(h)
    requires NoOverflow(c.img, At(a, h.cpu), StepsFrom(c, BlockAt(c.img, c.f, a), a))
    ensures RunsTo(c, live, tail, a, h, RunStmts(ResumeText(c, live, tail, a), h), StepsFrom(c, BlockAt(c.img, c.f, a),
            a), 0)
  {
    hide IsLeader, BlockAt, BlockEnd, RunStmts, BodyFrom, InstructionCode, CodeFrom, LabelsEmitted, ClosedUnderEdges,
         ChargeCode, ExtraLabel, CanonicalTable, GoodCode, EmittedAt, Owed, Shortfall, Landed, RefRun, BlockCycles,
         Rest, Clean, NoOverflow, TailFits;
    var b := BlockAt(c.img, c.f, a);
    LeaderIsLiveLabel(c, live, a);
    BlockStartsAt(c, a);
    StartIsEmitted(c, a);
    ResumeAtStart(c, b);
    CodeAtStart(c, a);
    var insn := InstructionCode(c, b, a, c.img.ReadWord(a).value);
    var code := insn + CodeFrom(c, b, a + 4) + Behind(c, live, tail, b);
    assert ResumeText(c, live, tail, a) == ChargeCode(c, b) + code;
    RunCharge(c, b, code, h);
    BlockCyclesIsRest(c, a);
    var h' := if c.blockMode then h.(cycles := h.cycles + BlockCycles(c.img, b)) else h;
    assert Clean(h') by { CleanCycles(h, h'); }
    RunFrom(c, live, tail, a, a, h');
  }

  lemma CleanCycles(h: Host, h': Host)
    requires Clean(h) && h'.cpu == h.cpu && h'.pc == h.pc
    ensures Clean(h')
  {
  }

  lemma InnerRuns(c: Context, live: set<int>, tail: seq<Stmt>, a: int, t: Word, h: Host)
    requires LiveBlock(c, live, a) && GoodBlock(c, a) && TailFits(c, tail) && Clean(h)
    requires t != a && HomeOf(c, t) == a && EmittedAt(c.img, BlockAt(c.img, c.f, a), t)
    requires NoOverflow(c.img, At(t, h.cpu), StepsFrom(c, BlockAt(c.img, c.f, a), t))
    ensures var b := BlockAt(c.img, c.f, a);
            RunsTo(c, live, tail, t, h, RunStmts(ResumeText(c, live, tail, t), h), StepsFrom(c, b, t), Rest(b, t))
  {
    hide IsLeader, BlockAt, BlockEnd, RunStmts, BodyFrom, InstructionCode, CodeFrom, LabelsEmitted, ClosedUnderEdges,
         GoodBlock, EmittedAt, RunsTo, Rest, Clean, HomeOf, ResumeText, NoOverflow;
    EmittedBounds(c, a, t);
    InnerText(c, live, tail, a, t);
    RunFrom(c, live, tail, a, t, h);
  }

  lemma InnerText(c: Context, live: set<int>, tail: seq<Stmt>, a: int, t: Word)
    requires t != a && HomeOf(c, t) == a && c.img.ReadWord(t).Some?
    ensures var b := BlockAt(c.img, c.f, a);
            ResumeText(c, live, tail, t)
            == InstructionCode(c, b, t, c.img.ReadWord(t).value) + CodeFrom(c, b, t + 4) + Behind(c, live, tail, b)
  {
    hide BlockAt, InstructionCode, CodeFrom, BodyFrom, HomeOf;
    BlockStartsAt(c, a);
    var b := BlockAt(c.img, c.f, a);
    var insn, on := InstructionCode(c, b, t, c.img.ReadWord(t).value), CodeFrom(c, b, t + 4);
    assert insn + on + BodyFrom(c, live, b.end + 4) + tail == insn + on + (BodyFrom(c, live, b.end + 4) + tail);
  }

  /** The code behind any live label of a good block runs as the reference machine does from
      that address. */
  lemma LabelToEvent(c: Context, live: set<int>, tail: seq<Stmt>, t: Word, h: Host)
    requires c.f.Valid() && ClosedUnderEdges(c, live) && LabelsEmitted(c)
    requires LiveLabel(c, live, t) && GoodBlock(c, HomeOf(c, t)) && TailFits(c, tail) && Clean(h)
    requires NoOverflow(c.img, At(t, h.cpu), StepsFrom(c, BlockAt(c.img, c.f, HomeOf(c, t)), t))
    ensures var b := BlockAt(c.img, c.f, HomeOf(c, t));
            RunsTo(c, live, tail, t, h, RunStmts(ResumeText(c, live, tail, t), h), StepsFrom(c, b, t), OwedAt(c, t))
  {
    hide IsLeader, BlockAt, BlockEnd, RunStmts, ResumeText, ClosedUnderEdges, TableTarget, GoodBlock, RunsTo, Rest,
         Clean, BlockStart, EmittedAt, NoOverflow;
    HomeContains(c, t);
    if IsLeader(c.img, c.f, t) {
      LeaderHome(c, t);
      LeaderRuns(c, live, tail, t, h);
    } else {
      InnerRuns(c, live, tail, HomeOf(c, t), t, h);
    }
  }

  lemma LeaderHome(c: Context, t: int)
    requires IsLeader(c.img, c.f, t)
    ensures HomeOf(c, t) == t
  {
    hide IsLeader;
  }
}