/** Code that runs off the end of a function where no other starts: the emitted function
    returns with `cpu->pc` clear, and the program takes that for the end of the run. */
module OpenEnds {
  import opened Words
  import opened Isa
  import opened ControlFlow
  import opened JumpTables
  import opened Emit
  import opened Runtime
  import opened Labels
  import opened Reference
  import opened Preserve
  import opened Exits
  import opened BlockRun
  import opened Generate
  import opened Routing
  import opened StackDepth
  import opened WholeRun
  import Translate

  // ---- a block without a transfer ----

  lemma PlainBlock(c: Context, a: int, y: int)
    requires c.f.Valid() && IsLeader(c.img, c.f, a) && BlockAt(c.img, c.f, a).exit.kind == CfKind.NoTransfer
    requires a <= y <= BlockEnd(c.img, c.f, a) && Aligned(y)
    ensures !TransferAt(c.img, y)
  {
    hide IsLeader, TransferAt, BlockEnd, NextAddresses, KeepLeaders, AnalyzeInstruction, IsControlFlow, FieldsOf,
         Aligned;
    ExitKind(c.img, c.f, a);
    if TransferAt(c.img, y) {
      TransferAtBlockEnd(c.img, c.f, a, y);
      TransferWord(c.img, y);
      TransferHasKind(y, c.img.ReadWord(y).value);
    }
  }

  /** Running from `x` on in `n` instructions: to a label further down, or to the end. */
  predicate Quiet(c: Context, b: BasicBlock, x: int, o: Outcome, n: int) {
    match o.event
    case Reached(t) => t == x + 4 * n && x < t <= b.end + 4
    case Called(t) => t == x + 4 * n == b.end + 4 && t as int in c.known
    case Returned => x + 4 * n == b.end + 4 && o.h.pc == 0
    case _ => false
  }

  ghost predicate QuietOn(c: Context, live: set<int>, tail: seq<Stmt>, a: int, x: Word, h: Host) {
    var w := c.img.ReadWord(x);
    var b := BlockAt(c.img, c.f, a);
    && w.Some?
    && var code := InstructionCode(c, b, x, w.value) + CodeFrom(c, b, x + 4) + Behind(c, live, tail, b);
       Quiet(c, b, x, RunStmts(code, h), StepsFrom(c, b, x))
  }

  lemma StepsThere(c: Context, b: BasicBlock, x: int)
    requires !TransferAt(c.img, x)
    ensures StepsFrom(c, b, x) == if x >= b.end || ExtraLabel(c.img, c.f, x + 4) then 1 else 1 + StepsFrom(c, b, x + 4)
  {
    hide TransferAt, ExtraLabel;
  }

  lemma {:induction false} StepsFit(c: Context, a: int, x: int)
    requires c.f.Valid() && IsLeader(c.img, c.f, a) && BlockAt(c.img, c.f, a).exit.kind == CfKind.NoTransfer
    requires a <= x <= BlockEnd(c.img, c.f, a) && Aligned(x)
    ensures x + 4 * StepsFrom(c, BlockAt(c.img, c.f, a), x) <= BlockEnd(c.img, c.f, a) + 4
    decreases BlockEnd(c.img, c.f, a) - x
  {
    hide IsLeader, BlockAt, BlockEnd, TransferAt, ExtraLabel, Aligned, StepsFrom;
    BlockStartsAt(c, a);
    BlockShape(c.img, c.f, a);
    PlainBlock(c, a, x);
    StepsThere(c, BlockAt(c.img, c.f, a), x);
    if x < BlockEnd(c.img, c.f, a) && !ExtraLabel(c.img, c.f, x + 4) {
      AlignedApart(x, BlockEnd(c.img, c.f, a));
      AlignedNeighbours(x);
      StepsFit(c, a, x + 4);
    }
  }

  lemma QuietStep(c: Context, b: BasicBlock, x: int, o: Outcome, n: int)
    requires Quiet(c, b, x + 4, o, n)
    ensures Quiet(c, b, x, o, n + 1)
  {
  }

  lemma QuietFall(c: Context, live: set<int>, tail: seq<Stmt>, b: BasicBlock, x: int, o: Outcome, cpu: Cpu)
    requires x == b.end && 0 <= x && x + 4 < WORD_LIMIT && Landed(c, live, tail, o, At(x + 4, cpu)) && !o.event.Jumped?
    requires o.event == Returned ==> o.h.pc == 0
    ensures Quiet(c, b, x, o, 1)
  {
    hide LiveLabel, ResumeText, EndsOpen;
  }

  lemma {:induction false} QuietFrom(c: Context, live: set<int>, tail: seq<Stmt>, a: int, x: Word, h: Host)
    requires LiveBlock(c, live, a) && GoodBlock(c, a) && TailFits(c, tail) && Clean(h)
    requires EmittedAt(c.img, BlockAt(c.img, c.f, a), x) && BlockAt(c.img, c.f, a).exit.kind == CfKind.NoTransfer
    requires NoOverflow(c.img, At(x, h.cpu), StepsFrom(c, BlockAt(c.img, c.f, a), x))
    ensures QuietOn(c, live, tail, a, x, h)
    decreases BlockAt(c.img, c.f, a).end - x
  {
    hide IsLeader, BlockAt, BlockEnd, RunStmts, BodyFrom, InstructionCode, CodeFrom, FallThrough, LabelsEmitted,
         ClosedUnderEdges, ExtraLabel, CanonicalTable, GoodCode, GoodPlain, TransferAt, EmittedAt, RefRun, FieldsOf,
         Exec, Behind, Join, NoOverflow, AtOverflow, Landed, Quiet, StepsFrom, Translate.DivOverflows;
    var b := BlockAt(c.img, c.f, a);
    EmittedBounds(c, a, x);
    BlockStartsAt(c, a);
    PlainBlock(c, a, x);
    var w := c.img.ReadWord(x).value;
    var insn := InstructionCode(c, b, x, w);
    var behind := Behind(c, live, tail, b);
    var rest := CodeFrom(c, b, x + 4) + behind;
    assert insn + CodeFrom(c, b, x + 4) + behind == insn + rest;
    StepsThere(c, b, x);
    PlainHere(c, a, x);
    PlainKeepsClean(c.img, x, h);
    var h' := h.(cpu := Exec(FieldsOf(w), h.cpu));
    NoOverflowNow(c.img, At(x, h.cpu), StepsFrom(c, b, x));
    NotDividing(c.img, x, h);
    PlainStep(c, b, x, rest, h);
    if x == b.end {
      CodeAtEnd(c, b);
      FallRuns(c, live, tail, a, h');
      QuietFall(c, live, tail, b, x, RunStmts(rest, h'), h'.cpu);
    } else {
      CodeAt(c, a, x + 4);
      var on := InstructionCode(c, b, x + 4, c.img.ReadWord(x + 4).value) + CodeFrom(c, b, x + 8) + behind;
      if ExtraLabel(c.img, c.f, x + 4) {
        assert rest == [Label(x + 4)] + on;
        RunLabel(x + 4, on, h');
        QuietLabel(c, b, x, Outcome(Reached(x + 4), on, h'));
      } else {
        NoOverflowLater(c.img, At(x, h.cpu), 1, StepsFrom(c, b, x + 4));
        QuietFrom(c, live, tail, a, x + 4, h');
        assert rest == on;
        QuietStep(c, b, x, RunStmts(on, h'), StepsFrom(c, b, x + 4));
      }
    }
  }

  lemma QuietLabel(c: Context, b: BasicBlock, x: int, o: Outcome)
    requires o.event == Reached(x + 4) && x < b.end + 4 && x + 4 <= b.end
    ensures Quiet(c, b, x, o, 1)
  {
  }

  lemma NotDividing(img: Image, x: Word, h: Host)
    requires img.ReadWord(x).Some? && !AtOverflow(img, At(x, h.cpu))
    ensures !Translate.DivOverflows(FieldsOf(img.ReadWord(x).value), h.cpu)
  {
    hide FieldsOf, Translate.DivOverflows;
  }

  /** The code behind any label of such a block. */
  lemma QuietFromLabel(c: Context, live: set<int>, tail: seq<Stmt>, t: Word, h: Host)
    requires c.f.Valid() && ClosedUnderEdges(c, live) && LabelsEmitted(c) && LiveLabel(c, live, t) && TailFits(c, tail)
            && Clean(h)
    requires GoodBlock(c, HomeOf(c, t)) && BlockAt(c.img, c.f, HomeOf(c, t)).exit.kind == CfKind.NoTransfer
    requires NoOverflow(c.img, At(t, h.cpu), LabelSteps(c, t))
    ensures Quiet(c, BlockAt(c.img, c.f, HomeOf(c, t)), t, RunStmts(ResumeText(c, live, tail, t), h), LabelSteps(c, t))
  {
    hide IsLeader, BlockAt, BlockEnd, RunStmts, ResumeText, ClosedUnderEdges, TableTarget, GoodBlock, Quiet, Clean,
         BlockStart, EmittedAt, NoOverflow, TailFits, InstructionCode, CodeFrom, BodyFrom, StepsFrom, ChargeCode;
    HomeContains(c, t);
    var a := HomeOf(c, t);
    if IsLeader(c.img, c.f, t) {
      LeaderHome(c, t);
      QuietLeader(c, live, tail, t, h);
    } else {
      EmittedBounds(c, a, t);
      InnerText(c, live, tail, a, t);
      QuietFrom(c, live, tail, a, t, h);
    }
  }

  lemma QuietLeader(c: Context, live: set<int>, tail: seq<Stmt>, a: Word, h: Host)
    requires LiveBlock(c, live, a) && GoodBlock(c, a) && TailFits(c, tail) && Clean(h)
    requires BlockAt(c.img, c.f, a).exit.kind == CfKind.NoTransfer
    requires NoOverflow(c.img, At(a, h.cpu), StepsFrom(c, BlockAt(c.img, c.f, a), a))
    ensures Quiet(c, BlockAt(c.img, c.f, a), a, RunStmts(ResumeText(c, live, tail, a), h), StepsFrom(c, BlockAt(c.img,
            c.f, a), a))
  {
    hide IsLeader, BlockAt, BlockEnd, RunStmts, BodyFrom, InstructionCode, CodeFrom, LabelsEmitted, ClosedUnderEdges,
         ChargeCode, ExtraLabel, CanonicalTable, GoodCode, EmittedAt, BlockCycles, Clean, NoOverflow, TailFits,
         StepsFrom, Quiet, HomeOf, ResumeCode;
    var b := BlockAt(c.img, c.f, a);
    BlockStartsAt(c, a);
    StartIsEmitted(c, a);
    ResumeAtStart(c, b);
    CodeAtStart(c, a);
    LeaderHome(c, a);
    var insn := InstructionCode(c, b, a, c.img.ReadWord(a).value);
    var code := insn + CodeFrom(c, b, a + 4) + Behind(c, live, tail, b);
    assert ResumeText(c, live, tail, a) == ChargeCode(c, b) + code;
    RunCharge(c, b, code, h);
    BlockCyclesIsRest(c, a);
    var h' := if c.blockMode then h.(cycles := h.cycles + BlockCycles(c.img, b)) else h;
    CleanCycles(h, h');
    QuietFrom(c, live, tail, a, a, h');
  }

  // ---- the run ends ----

  /** The last block of unit `i`, when it runs up to the end without a transfer and no
      function starts there, with label `t` in it. */
  ghost predicate RunsOut(b: Build, i: nat, t: Word)
    requires i < |b.functions|
  {
    var c := UnitContext(b, i);
    var blk := BlockAt(c.img, c.f, HomeOf(c, t));
    blk.exit.kind == CfKind.NoTransfer && blk.end + 4 == c.f.end && c.f.end as int !in c.known
  }

  lemma {:induction false} StepsFirst(p: Program, c: Config, n: nat)
    ensures Steps(p, Step(p, c), n) == Steps(p, c, n + 1)
  {
    hide Step;
    if n > 0 {
      StepsFirst(p, c, n - 1);
    }
  }

  /** A run that has fallen off unwinds, finishes, and has done nothing more. */
  lemma {:induction false} FallenFinishes(b: Build, c: Config, m: Machine) returns (n: nat)
    requires Synced(b, ProgramOf(b), c, Fallen, m)
    ensures Steps(ProgramOf(b), c, n) == Stopped(Finished, c.h)
    decreases Rank(b, c, Fallen)
  {
    hide ProgramOf, StackOk, OffEnd, Step;
    var p := ProgramOf(b);
    var s' := FallenStep(b, c, m);
    if c.Dispatching? {
      n := 1;
      assert Steps(p, c, 1) == Step(p, Steps(p, c, 0));
    } else {
      FallenGoesOn(b, c, m, s');
      n := FallenFinishes(b, Step(p, c), m);
      StepsFirst(p, c, n);
      n := n + 1;
    }
  }

  lemma FallenGoesOn(b: Build, c: Config, m: Machine, s': Stage)
    requires Synced(b, ProgramOf(b), c, Fallen, m) && c.Running?
    ensures Synced(b, ProgramOf(b), Step(ProgramOf(b), c), Fallen, m)
    ensures Rank(b, Step(ProgramOf(b), c), Fallen) < Rank(b, c, Fallen)
  {
    hide ProgramOf, OffEnd, Rising;
    if c.frames != [] {
      PopOk(b, ProgramOf(b), c.frames);
      RunReturn(c.frames[|c.frames| - 1].rest, c.h);
    }
  }

  lemma NoOverflowLess(img: Image, m: Machine, n: nat, k: nat)
    requires NoOverflow(img, m, n) && k <= n
    ensures NoOverflow(img, m, k)
  {
    hide AtOverflow, RefRun;
  }

  /** The reference machine walks straight through such a block. */
  lemma {:induction false} PlainPc(c: Context, a: int, x: Word, cpu: Cpu, k: nat)
    requires c.f.Valid() && IsLeader(c.img, c.f, a) && GoodCode(c, a)
            && BlockAt(c.img, c.f, a).exit.kind == CfKind.NoTransfer
    requires a <= x && Aligned(x) && x + 4 * k <= BlockEnd(c.img, c.f, a) + 4
    ensures RefRun(c.img, At(x, cpu), k).Some? && RefRun(c.img, At(x, cpu), k).value.pc == x + 4 * k
    decreases k
  {
    hide IsLeader, BlockAt, BlockEnd, GoodCode, GoodPlain, TransferAt, RefStep, Exec, FieldsOf, Aligned;
    BlockShape(c.img, c.f, a);
    if k > 0 {
      PlainBlock(c, a, x);
      InstructionIsGood(c, a, x);
      AlignedNeighbours(x);
      PlainReads(c.img, x);
      PlainRun(c.img, x, cpu);
      var next := Exec(FieldsOf(c.img.ReadWord(x).value), cpu);
      PlainPc(c, a, x + 4, next, k - 1);
      RefRunSplit(c.img, At(x, cpu), 1, k - 1);
    }
  }

  lemma PlainReads(img: Image, x: int)
    requires GoodInstruction(img, x) && !TransferAt(img, x)
    ensures GoodPlain(img, x) && img.ReadWord(x).Some?
  {
    hide FieldsOf, TransferAt, GoodTransfer;
  }

  lemma OutLands(b: Build, frames: seq<Frame>, h: Host, i: nat, t: Word, s': Stage, m': Machine, k: nat)
    requires i < |b.functions| && frames != [] && RunsOut(b, i, t) && b.functions[i].Valid()
    requires LandsAt(b, frames, i, RunStmts(frames[|frames| - 1].rest, h), s', m') && m'.pc == t + 4 * k
    requires var c := UnitContext(b, i);
             Quiet(c, BlockAt(c.img, c.f, HomeOf(c, t)), t, RunStmts(frames[|frames| - 1].rest, h), k)
    ensures if m'.pc == b.functions[i].end then s' == Fallen
            else s'.AtLabel? && s' == AtLabel(i, m'.pc) && t < m'.pc < b.functions[i].end && Aligned(m'.pc)
  {
    hide ProgramOf, StackOk, UnitId, ResumeText, RunStmts, BlockAt, HomeOf, UnitLive, UnitTail, Build.IsUnit, Owed,
         EventSteps, Shortfall, StageSteps, Function.Valid, OffEnd, AtShortEntry, HasLabel;
    EndPositive(b.functions[i]);
    var o := RunStmts(frames[|frames| - 1].rest, h);
    var c' := AfterEvent(ProgramOf(b), frames[..|frames| - 1], UnitId(b, i), o);
    assert Synced(b, ProgramOf(b), c', s', m');
  }

  lemma EndPositive(f: Function)
    requires f.Valid()
    ensures 0 < f.end && Aligned(f.end)
  {
  }

  lemma SameHome(c: Context, a: int, x: int)
    requires c.f.Valid() && IsLeader(c.img, c.f, a) && a <= x <= BlockEnd(c.img, c.f, a) && Aligned(x)
    ensures HomeOf(c, x) == a
  {
    hide IsLeader, BlockEnd, BlockStart;
    BlockShape(c.img, c.f, a);
    BlocksTile(c.img, c.f, x, a);
  }

  /** One step from a label of such a block: to a label further down, or off the end. */
  lemma OutStep(b: Build, frames: seq<Frame>, h: Host, i: nat, t: Word, m: Machine)
    returns (s': Stage, m': Machine, k: nat)
    requires b.Valid() && AllLabelsEmitted(b) && i < |b.functions|
    requires Synced(b, ProgramOf(b), Running(frames, h), AtLabel(i, t), m) && RunsOut(b, i, t)
    requires GoodBlock(UnitContext(b, i), HomeOf(UnitContext(b, i), t))
    requires NoOverflow(b.img, m, (b.functions[i].end - t) / 4)
    ensures StepOk(b, Running(frames, h), AtLabel(i, t), m, Step(ProgramOf(b), Running(frames, h)), s', m', k)
    ensures m'.pc == t + 4 * k && k > 0 && Aligned(b.functions[i].end - t)
    ensures if m'.pc == b.functions[i].end then s' == Fallen
            else
              && s' == AtLabel(i, m'.pc) && m'.pc < b.functions[i].end
              && HomeOf(UnitContext(b, i), m'.pc) == HomeOf(UnitContext(b, i), t)
  {
    hide Build.Valid, AllLabelsEmitted, UnitLive, UnitTail, StackOk, ProgramOf, UnitId, ResumeText, AfterEvent,
         RunStmts, StepsFrom, GoodCode, CanonicalTable, ClosedUnderEdges, BlockAt, BlockEnd, HomeOf, RefRun,
         LabelsEmitted, ShortAt, StepsAfter, StepOk, Build.IsUnit, LandsAt, NoOverflow, Quiet, IsLeader,
         Function.Valid, TailFits, Aligned, HasLabel;
    var c := UnitContext(b, i);
    UnitTextIs(b, i);
    UnitIsClosedUnit(b, i);
    UnitTailFits(b, i);
    UnitLabels(b, i);
    HomeFits(c, UnitLive(b, i), t);
    StepsFit(c, HomeOf(c, t), t);
    NoOverflowLess(b.img, m, (b.functions[i].end - t) / 4, LabelSteps(c, t));
    s', m', k := LabelStep(b, frames, h, i, t, m);
    QuietFromLabel(c, UnitLive(b, i), UnitTail(b, i), t, h);
    StepIsRun(b, Running(frames, h), AtLabel(i, t), m, Step(ProgramOf(b), Running(frames, h)), s', m', k);
    PlainPc(c, HomeOf(c, t), t, h.cpu, k);
    OutLands(b, frames, h, i, t, s', m', k);
    StepsPositive(c, BlockAt(c.img, c.f, HomeOf(c, t)), t);
    BlockShape(c.img, c.f, HomeOf(c, t));
    EndPositive(b.functions[i]);
    AlignedGap(t, b.functions[i].end);
    if m'.pc != b.functions[i].end {
      AlignedApart(m'.pc, b.functions[i].end);
      SameHome(c, HomeOf(c, t), m'.pc);
    }
  }

  lemma StepIsRun(b: Build, c: Config, s: Stage, m: Machine, c': Config, s': Stage, m': Machine, k: nat)
    requires StepOk(b, c, s, m, c', s', m', k)
    ensures RefRun(b.img, m, k) == Some(m') && k == StageSteps(b, s)
  {
    hide ProgramOf, Synced, ShortAt, StepsAfter, StageSteps, RefRun, Rank, Ahead;
  }

  lemma UnitLabels(b: Build, i: nat)
    requires AllLabelsEmitted(b) && b.IsUnit(i) && i < |b.functions|
    ensures LabelsEmitted(UnitContext(b, i))
  {
    hide LabelsEmitted, Build.IsUnit;
  }

  lemma HomeFits(c: Context, live: set<int>, t: Word)
    requires c.f.Valid() && ClosedUnderEdges(c, live) && LabelsEmitted(c) && LiveLabel(c, live, t)
    ensures var a := HomeOf(c, t);
            IsLeader(c.img, c.f, a) && a <= t <= BlockEnd(c.img, c.f, a) && Aligned(t)
              && BlockAt(c.img, c.f, a).end == BlockEnd(c.img, c.f, a)
  {
    hide IsLeader, BlockAt, BlockEnd, ClosedUnderEdges, TableTarget, EmittedAt;
    HomeContains(c, t);
    BlockStartIsLast(c.img, c.f, t);
    BlockStartsAt(c, HomeOf(c, t));
    BlocksTile(c.img, c.f, t, HomeOf(c, t));
  }

  /** The converse of staying in step: from any label of such a block the run finishes, with
      the registers and memory the reference machine has at the end of the unit, where that
      machine goes on. */
  lemma {:induction false} OpenEndFinishes(b: Build, frames: seq<Frame>, h: Host, i: nat, t: Word, m: Machine)
    returns (n: nat, h': Host)
    requires b.Valid() && AllLabelsEmitted(b) && i < |b.functions|
    requires Synced(b, ProgramOf(b), Running(frames, h), AtLabel(i, t), m) && RunsOut(b, i, t)
    requires GoodBlock(UnitContext(b, i), HomeOf(UnitContext(b, i), t))
    requires NoOverflow(b.img, m, (b.functions[i].end - t) / 4)
    ensures Steps(ProgramOf(b), Running(frames, h), n) == Stopped(Finished, h') && h'.pc == 0 < b.functions[i].end
    ensures b.functions[i].end >= t
            && RefRun(b.img, m, (b.functions[i].end - t) / 4) == Some(At(b.functions[i].end, h'.cpu))
    decreases b.functions[i].end - t
  {
    hide Build.Valid, AllLabelsEmitted, ProgramOf, Step, Steps, StepOk, Synced, GoodBlock, HomeOf, RunsOut,
         NoOverflow, RefRun, UnitContext, Aligned, Advances, StageSteps, StepsAfter;
    var p := ProgramOf(b);
    var end := b.functions[i].end;
    var s', m', k := OutStep(b, frames, h, i, t, m);
    var c' := Step(p, Running(frames, h));
    StepAdvances(b, Running(frames, h), AtLabel(i, t), m, c', s', m', k);
    if m'.pc == end {
      n := FallenFinishes(b, c', m');
      StepsFirst(p, Running(frames, h), n);
      n, h' := n + 1, c'.h;
      FallenMachine(b, c', m');
      StepsBetween(t, k, end, m'.pc);
    } else {
      LabelRunning(b, c', i, m'.pc, m');
      SameBlockRunsOut(b, i, t, m'.pc);
      StepsBetween(t, k, end, m'.pc);
      LaterOverflow(b.img, m, k, (end - t) / 4);
      n, h' := OpenEndFinishes(b, c'.frames, c'.h, i, m'.pc, m');
      StepsFirst(p, Running(frames, h), n);
      n := n + 1;
      JoinRuns(b.img, m, k, (end - m'.pc) / 4, m');
    }
  }

  lemma StepsBetween(t: int, k: nat, end: int, u: int)
    requires u == t + 4 * k <= end
    ensures (end - t) / 4 == k + (end - u) / 4 && k <= (end - t) / 4
  {
  }

  lemma JoinRuns(img: Image, m: Machine, k: nat, n: nat, m': Machine)
    requires RefRun(img, m, k) == Some(m')
    ensures RefRun(img, m, k + n) == RefRun(img, m', n)
  {
    RefRunSplit(img, m, k, n);
  }

  lemma LaterOverflow(img: Image, m: Machine, k: nat, n: nat)
    requires NoOverflow(img, m, n) && k <= n && RefRun(img, m, k).Some?
    ensures NoOverflow(img, RefRun(img, m, k).value, n - k)
  {
    hide NoOverflow, RefRun;
    NoOverflowLater(img, m, k, n - k);
  }

  lemma FallenMachine(b: Build, c: Config, m: Machine)
    requires Synced(b, ProgramOf(b), c, Fallen, m)
    ensures m == At(m.pc, c.h.cpu) && c.h.pc == 0
  {
    hide ProgramOf, StackOk, OffEnd;
  }

  lemma LabelRunning(b: Build, c: Config, i: nat, t: Word, m: Machine)
    requires Synced(b, ProgramOf(b), c, AtLabel(i, t), m)
    ensures c.Running?
  {
    hide ProgramOf, StackOk, OffEnd;
  }

  lemma SameBlockRunsOut(b: Build, i: nat, t: Word, u: Word)
    requires i < |b.functions| && RunsOut(b, i, t) && HomeOf(UnitContext(b, i), u) == HomeOf(UnitContext(b, i), t)
    ensures RunsOut(b, i, u)
  {
    hide BlockAt, HomeOf;
  }
}
