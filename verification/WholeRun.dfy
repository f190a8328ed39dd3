/** Whole runs of the emitted program under the dispatcher, in step with the reference
    machine; how deep the C stack gets; and the cycles charged. */
module WholeRun {
  import opened Words
  import opened Isa
  import opened ControlFlow
  import opened JumpTables
  import opened Emit
  import opened Runtime
  import opened Labels
  import opened Reference
  import opened Preserve
  import opened Exits
  import opened BlockRun
  import opened Generate
  import opened Routing
  import opened StackDepth
  import Translate

  /** What a configuration is in the middle of. */
  datatype Stage =
    | AtEntry(i: nat, a: Word)
    | AtLabel(i: nat, t: Word)
    | Unwinding
    | Idle
    | Fallen
    | Halted

  // ---- the C stack ----

  /** Ready to return: what a caller's frame holds while its callee runs. */
  predicate Returns(rest: seq<Stmt>) {
    rest == [] || rest[0] == ReturnStmt
  }

  ghost predicate ReturnsBelow(frames: seq<Frame>) {
    forall k :: 0 <= k < |frames| - 1 ==> Returns(frames[k].rest)
  }

  ghost predicate StackOk(b: Build, p: Program, frames: seq<Frame>) {
    Rising(b, p, frames) && ReturnsBelow(frames)
  }

  lemma PopOk(b: Build, p: Program, frames: seq<Frame>)
    requires StackOk(b, p, frames) && frames != []
    ensures var below := frames[..|frames| - 1];
            StackOk(b, p, below) && (below != [] ==> Returns(below[|below| - 1].rest))
  {
    hide Level;
  }

  lemma ReplaceOk(b: Build, p: Program, frames: seq<Frame>, rest: seq<Stmt>)
    requires StackOk(b, p, frames) && frames != []
    ensures StackOk(b, p, frames[..|frames| - 1] + [Frame(frames[|frames| - 1].id, rest)])
  {
    hide Level;
    var frames' := frames[..|frames| - 1] + [Frame(frames[|frames| - 1].id, rest)];
    assert forall k :: 0 <= k < |frames| ==> frames'[k].id == frames[k].id;
  }

  lemma PushOk(b: Build, p: Program, frames: seq<Frame>, f: Frame)
    requires StackOk(b, p, frames) && f.id in p.text
    requires frames != [] ==>
               Level(b, frames[|frames| - 1].id) < Level(b, f.id) && Returns(frames[|frames| - 1].rest)
    ensures StackOk(b, p, frames + [f])
  {
    hide Level;
    var frames' := frames + [f];
    assert forall k :: 0 <= k < |frames| ==> frames'[k] == frames[k];
    forall j, k | 0 <= j < k < |frames'| ensures Level(b, frames'[j].id) < Level(b, frames'[k].id) {
      if k == |frames| && j < |frames| - 1 {
        assert Level(b, frames[j].id) < Level(b, frames[|frames| - 1].id);
      }
    }
  }

  // ---- in step ----

  /** A function about to run from its top, bound for address `a`. */
  ghost predicate EntryOk(b: Build, p: Program, top: Frame, h: Host, i: nat, a: Word) {
    && i < |b.functions| && top.id in p.text && top.rest == p.text[top.id]
    && if b.IsUnit(i) && top.id == UnitId(b, i) then EntersAt(b, i, h, a)
       else
         && top.id == Func(b.functions[i].start)
         && if h.pc == 0 then a == b.functions[i].start
            else a == h.pc && b.Translated(i) && a as int in UnitContinuations(b, i)
  }

  ghost predicate LabelOk(b: Build, top: Frame, h: Host, i: nat, t: Word) {
    && b.IsUnit(i) && top.id == UnitId(b, i) && h.pc == 0
    && LiveLabel(UnitContext(b, i), UnitLive(b, i), t)
    && top.rest == ResumeText(UnitContext(b, i), UnitLive(b, i), UnitTail(b, i), t)
  }

  /** A unit that runs off its end, where no function starts. */
  ghost predicate OpenUnit(b: Build, i: nat) {
    && i < |b.functions| && b.IsUnit(i) && b.functions[i].end as int !in b.Known()
    && EndsOpen(UnitContext(b, i), UnitLive(b, i))
  }

  ghost predicate OffEnd(b: Build, a: Word) {
    exists i: nat :: OpenUnit(b, i) && a == b.functions[i].end
  }

  ghost predicate TopOk(b: Build, p: Program, frames: seq<Frame>, h: Host, s: Stage, m: Machine) {
    match s
    case AtEntry(i, a) => frames != [] && m.pc == a && EntryOk(b, p, frames[|frames| - 1], h, i, a)
    case AtLabel(i, t) => frames != [] && m.pc == t && LabelOk(b, frames[|frames| - 1], h, i, t)
    case Unwinding => m.pc == h.pc && (frames != [] ==> Returns(frames[|frames| - 1].rest))
    case Fallen => h.pc == 0 && OffEnd(b, m.pc) && (frames != [] ==> Returns(frames[|frames| - 1].rest))
    case Idle => false
    case Halted => false
  }

  /** The reasons a run can stop for, with what they say about where it stands. */
  ghost predicate StopOk(b: Build, p: Program, reason: Reason, h: Host, m: Machine) {
    match reason
    case Finished => h.pc == 0 && (m.pc == 0 || OffEnd(b, m.pc))
    case DispatchMiss => m.pc == h.pc && h.pc != 0 && Func(h.pc) !in p.text && h.pc !in p.owner
    case UnknownFunction =>
      exists i: nat :: i < |b.functions| && b.Stubbed(b.functions[i])
                       && (m.pc == b.functions[i].start || m.pc as int in UnitContinuations(b, i))
    case _ => false
  }

  /** Configuration `c` stands where machine `m` does: same registers, hi, lo and memory, at
      the address `m` is about to execute. */
  ghost predicate Synced(b: Build, p: Program, c: Config, s: Stage, m: Machine) {
    && m == At(m.pc, c.h.cpu) && c.h.cpu.gpr[0] == 0
    && match c
       case Running(frames, h) => StackOk(b, p, frames) && TopOk(b, p, frames, h, s, m)
       case Dispatching(h) => (s == Idle && m.pc == h.pc) || (s == Fallen && h.pc == 0 && OffEnd(b, m.pc))
       case Stopped(reason, h) => s == Halted && StopOk(b, p, reason, h, m)
  }

  /** Instructions executed from a label to the next event. */
  function LabelSteps(c: Context, t: int): nat {
    StepsFrom(c, BlockAt(c.img, c.f, HomeOf(c, t)), t)
  }

  function StageSteps(b: Build, s: Stage): nat {
    if s.AtLabel? && s.i < |b.functions| then LabelSteps(UnitContext(b, s.i), s.t) else 0
  }

  function EventSteps(c: Context, e: Event): nat {
    match e
    case Reached(t) => LabelSteps(c, t)
    case Jumped(t) => LabelSteps(c, t)
    case _ => 0
  }

  /** Where the run stands at a label, its block is one the emitter handles, and no division
      ahead of the next event overflows. */
  ghost predicate GoodStage(b: Build, s: Stage, cpu: Cpu) {
    s.AtLabel? && s.i < |b.functions| ==>
      && GoodBlock(UnitContext(b, s.i), HomeOf(UnitContext(b, s.i), s.t))
      && NoOverflow(b.img, At(s.t, cpu), StageSteps(b, s))
  }

  ghost predicate AllLabelsEmitted(b: Build) {
    forall i: nat :: b.IsUnit(i) ==> LabelsEmitted(UnitContext(b, i))
  }

  /** Cycles charged ahead of the instructions still to run. */
  function Ahead(b: Build, s: Stage): int {
    if s.AtLabel? && s.i < |b.functions| then OwedAt(UnitContext(b, s.i), s.t) else 0
  }

  /** 1 when the next event is a jump-table entry that charges one cycle too few. */
  ghost function ShortAt(b: Build, c: Config): int {
    if c.Running? && c.frames != [] && exists i: nat :: b.IsUnit(i) && UnitId(b, i) == c.frames[|c.frames| - 1].id then
      var i: nat :| b.IsUnit(i) && UnitId(b, i) == c.frames[|c.frames| - 1].id;
      Shortfall(UnitContext(b, i), RunStmts(c.frames[|c.frames| - 1].rest, c.h).event)
    else 0
  }

  /** The instructions the step after this one will execute: those from the label this step
      reaches or jumps to. */
  ghost function StepsAfter(b: Build, c: Config): nat {
    if c.Running? && c.frames != [] && exists i: nat :: b.IsUnit(i) && UnitId(b, i) == c.frames[|c.frames| - 1].id then
      var i: nat :| b.IsUnit(i) && UnitId(b, i) == c.frames[|c.frames| - 1].id;
      EventSteps(UnitContext(b, i), RunStmts(c.frames[|c.frames| - 1].rest, c.h).event)
    else 0
  }

  lemma UnitInRange(b: Build, i: nat)
    requires b.IsUnit(i)
    ensures i < |b.functions|
  {
  }

  lemma ShortAtUnit(b: Build, frames: seq<Frame>, h: Host, i: nat)
    requires b.DistinctStarts() && frames != [] && b.IsUnit(i) && frames[|frames| - 1].id == UnitId(b, i)
    ensures ShortAt(b, Running(frames, h)) == Shortfall(UnitContext(b, i), RunStmts(frames[|frames| - 1].rest, h).event)
    ensures StepsAfter(b, Running(frames, h))
            == EventSteps(UnitContext(b, i), RunStmts(frames[|frames| - 1].rest, h).event)
  {
    hide RunStmts, Shortfall, UnitId, Build.Stubbed, Build.FirstOfGroup, Build.DistinctStarts, EventSteps;
    var n: nat :| b.IsUnit(n) && UnitId(b, n) == frames[|frames| - 1].id
                  && StepsAfter(b, Running(frames, h))
                    == EventSteps(UnitContext(b, n), RunStmts(frames[|frames| - 1].rest, h).event);
    UnitInRange(b, n);
    if i != n {
      UnitIdsDiffer(b, i, n);
    }
    var j: nat :| b.IsUnit(j) && UnitId(b, j) == frames[|frames| - 1].id
                  && ShortAt(b, Running(frames, h))
                    == Shortfall(UnitContext(b, j), RunStmts(frames[|frames| - 1].rest, h).event);
    UnitInRange(b, j);
    if i != j {
      UnitIdsDiffer(b, i, j);
    }
  }

  // ---- one step of each kind ----

  /** How many steps the run can still take before it executes an instruction or stops. */
  function Rank(b: Build, c: Config, s: Stage): nat {
    match s
    case AtLabel(_, _) => 0
    case Halted => 0
    case AtEntry(i, _) =>
      if c.Running? && c.frames != [] && c.frames[|c.frames| - 1].id.Func? && i < |b.functions|
        && b.functions[i].IsAlias()
      then 2 else 1
    case Idle => 3
    case Unwinding => if c.Running? then 4 + |c.frames| else 0
    case Fallen => if c.Running? then 4 + |c.frames| else 3
  }

  /** What a step owes the reference machine: `k` instructions, at their cycles; none only
      on the way to the next label. */
  ghost predicate StepOk(b: Build, c: Config, s: Stage, m: Machine, c': Config, s': Stage, m': Machine, k: nat) {
    && RefRun(b.img, m, k) == Some(m') && Synced(b, ProgramOf(b), c', s', m')
    && (b.blockMode ==> c'.h.cycles + ShortAt(b, c) + Ahead(b, s) == c.h.cycles + k + Ahead(b, s'))
    && (k > 0 || s == Halted || Rank(b, c', s') < Rank(b, c, s))
    && k == StageSteps(b, s) && StageSteps(b, s') == StepsAfter(b, c)
    && (ShortAt(b, c) != 0 ==> AtShortEntry(b, s'))
  }

  /** The run has just entered the middle of a block whose delay slot lies outside. */
  ghost predicate AtShortEntry(b: Build, s: Stage) {
    s.AtLabel? && b.IsUnit(s.i) && LiveLabel(UnitContext(b, s.i), UnitLive(b, s.i), s.t)
      && ShortEntry(UnitContext(b, s.i), s.t)
  }

  /** Returning, or unwinding the frames of callers that only return. */
  lemma ReturnStep(b: Build, frames: seq<Frame>, h: Host, m: Machine) returns (s': Stage)
    requires Synced(b, ProgramOf(b), Running(frames, h), Unwinding, m)
    ensures StepOk(b, Running(frames, h), Unwinding, m, Step(ProgramOf(b), Running(frames, h)), s', m, 0)
  {
    hide ProgramOf, Rising, ReturnsBelow, ShortAt, StepsAfter, UnitContext;
    if frames == [] {
      s' := Idle;
      NoShortReturn(b, frames, h);
    } else {
      s' := Unwinding;
      PopOk(b, ProgramOf(b), frames);
      var top := frames[|frames| - 1];
      RunReturn(top.rest, h);
      NoShortReturn(b, frames, h);
    }
  }

  /** A run that fell off the end of its function unwinds likewise, and finishes. */
  lemma FallenStep(b: Build, c: Config, m: Machine) returns (s': Stage)
    requires Synced(b, ProgramOf(b), c, Fallen, m)
    ensures StepOk(b, c, Fallen, m, Step(ProgramOf(b), c), s', m, 0)
    ensures Step(ProgramOf(b), c).h == c.h && (c.Dispatching? ==> Step(ProgramOf(b), c) == Stopped(Finished, c.h))
  {
    hide ProgramOf, Rising, ReturnsBelow, ShortAt, StepsAfter, UnitContext, OffEnd;
    s' := if c.Dispatching? then Halted else Fallen;
    if c.Running? {
      if c.frames != [] {
        PopOk(b, ProgramOf(b), c.frames);
        RunReturn(c.frames[|c.frames| - 1].rest, c.h);
      }
      NoShortReturn(b, c.frames, c.h);
    } else {
      NothingDispatched(b, c.h);
    }
  }

  lemma NothingDispatched(b: Build, h: Host)
    ensures ShortAt(b, Dispatching(h)) == 0 == StepsAfter(b, Dispatching(h))
  {
  }

  lemma RunReturn(rest: seq<Stmt>, h: Host)
    requires Returns(rest)
    ensures RunStmts(rest, h).event == Returned && RunStmts(rest, h).h == h
  {
  }

  lemma NoShortReturn(b: Build, frames: seq<Frame>, h: Host)
    requires frames != [] ==>
               var e := RunStmts(frames[|frames| - 1].rest, h).event; !e.Jumped? && !e.Reached?
    ensures ShortAt(b, Running(frames, h)) == 0 == StepsAfter(b, Running(frames, h))
  {
    hide RunStmts, Build.IsUnit, UnitId, ShortEntry, LabelSteps;
  }

  /** A jump inside a unit stays on its frame. */
  lemma JumpLands(b: Build, frames: seq<Frame>, i: nat, o: Outcome)
    requires b.Valid() && AllLabelsEmitted(b) && b.IsUnit(i) && StackOk(b, ProgramOf(b), frames)
    requires frames != [] && frames[|frames| - 1].id == UnitId(b, i)
    requires o.event.Jumped? && Clean(o.h) && LiveLabel(UnitContext(b, i), UnitLive(b, i), o.event.dest)
    ensures var p := ProgramOf(b);
            AfterEvent(p, frames[..|frames| - 1], UnitId(b, i), o)
            == Running(frames[..|frames| - 1]
                         + [Frame(UnitId(b, i), ResumeText(UnitContext(b, i), UnitLive(b, i), UnitTail(b, i),
                           o.event.dest))], o.h)
  {
    hide Build.Valid, UnitText, UnitLive, UnitTail, UnitContext, LiveLabel, LabelsEmitted, TextAround, StackOk,
         ProgramOf, ResumeText, UnitId;
    UnitTextIs(b, i);
    UnitParts(b, i);
    GotoResumes(UnitContext(b, i), UnitLive(b, i), UnitText(b, i), UnitEntry(b, i), UnitTail(b, i), o.event.dest);
  }

  lemma LabelIsOk(b: Build, frames: seq<Frame>, i: nat, t: Word, rest: seq<Stmt>, h: Host, m: Machine)
    requires b.Valid() && b.IsUnit(i) && StackOk(b, ProgramOf(b), frames)
    requires frames != [] && frames[|frames| - 1].id == UnitId(b, i)
    requires Clean(h) && m == At(t, h.cpu) && LiveLabel(UnitContext(b, i), UnitLive(b, i), t)
    requires rest == ResumeText(UnitContext(b, i), UnitLive(b, i), UnitTail(b, i), t)
    ensures Synced(b, ProgramOf(b), Running(frames[..|frames| - 1] + [Frame(UnitId(b, i), rest)], h), AtLabel(i, t), m)
  {
    hide Build.Valid, UnitLive, UnitTail, UnitContext, LiveLabel, StackOk, ProgramOf, ResumeText, UnitId;
    ReplaceOk(b, ProgramOf(b), frames, rest);
  }

  /** Calling the function behind: it is entered with `cpu->pc` clear. */
  lemma CallLands(b: Build, frames: seq<Frame>, i: nat, j: nat, rest: seq<Stmt>, h: Host, m: Machine)
    requires b.Valid() && b.IsUnit(i) && StackOk(b, ProgramOf(b), frames)
    requires frames != [] && frames[|frames| - 1].id == UnitId(b, i) && Returns(rest)
    requires j < |b.functions| && b.functions[j].start == b.functions[i].end
    requires Clean(h) && m == At(b.functions[i].end, h.cpu)
    ensures var a := b.functions[i].end;
            var p := ProgramOf(b);
            Synced(b, p, Enter(p, frames[..|frames| - 1] + [Frame(UnitId(b, i), rest)], Func(a), h), AtEntry(j, a), m)
    ensures Enter(ProgramOf(b), frames[..|frames| - 1] + [Frame(UnitId(b, i), rest)], Func(b.functions[i].end), h).h
            == h
  {
    hide ProgramOf, StackOk, UnitContinuations, UnitEntries, Build.DistinctStarts, Build.SiblingsAgree, Build.IsUnit;
    var p := ProgramOf(b);
    UnitInRange(b, i);
    var a := b.functions[i].end;
    var frames' := frames[..|frames| - 1] + [Frame(UnitId(b, i), rest)];
    EveryStartIsCallable(b, j);
    CallRises(b, i);
    ReplaceOk(b, p, frames, rest);
    PushOk(b, p, frames', Frame(Func(a), p.text[Func(a)]));
  }

  /** What holds where an event of a unit's code leaves the run. */
  ghost predicate LandsAt(b: Build, frames: seq<Frame>, i: nat, o: Outcome, s': Stage, m: Machine)
    requires i < |b.functions| && frames != []
  {
    var c' := AfterEvent(ProgramOf(b), frames[..|frames| - 1], UnitId(b, i), o);
    && Synced(b, ProgramOf(b), c', s', m) && c'.h == o.h && Ahead(b, s') == Owed(UnitContext(b, i), o.event)
    && (Shortfall(UnitContext(b, i), o.event) != 0 ==> AtShortEntry(b, s'))
    && StageSteps(b, s') == EventSteps(UnitContext(b, i), o.event)
    && (o.event.Reached? ==> s' == AtLabel(i, m.pc) && m.pc == o.event.dest)
    && (o.event == Returned ==> s' == Unwinding || s' == Fallen)
  }

  lemma LabelLands(b: Build, frames: seq<Frame>, i: nat, o: Outcome, m: Machine)
    requires b.Valid() && AllLabelsEmitted(b) && b.IsUnit(i) && StackOk(b, ProgramOf(b), frames)
    requires i < |b.functions| && frames != [] && frames[|frames| - 1].id == UnitId(b, i)
    requires Arrived(UnitContext(b, i), UnitLive(b, i), UnitTail(b, i), o, m)
    requires o.event.Reached? || o.event.Jumped?
    ensures LandsAt(b, frames, i, o, AtLabel(i, m.pc), m)
  {
    hide Build.DistinctStarts, Build.SiblingsAgree, Build.IsUnit, Build.Translated, UnitLive, UnitTail, LiveLabel,
         StackOk, ProgramOf, ResumeText, UnitId, AllLabelsEmitted, OwedAt, AfterLabel, ShortEntry, LabelSteps;
    UnitTextIs(b, i);
    if o.event.Reached? {
      LabelIsOk(b, frames, i, m.pc, o.rest, o.h, m);
    } else {
      JumpLands(b, frames, i, o);
      LabelIsOk(b, frames, i, m.pc, ResumeText(UnitContext(b, i), UnitLive(b, i), UnitTail(b, i), o.event.dest), o.h,
        m);
    }
  }

  lemma CalledLands(b: Build, frames: seq<Frame>, i: nat, o: Outcome, m: Machine) returns (s': Stage)
    requires b.Valid() && AllLabelsEmitted(b) && b.IsUnit(i) && StackOk(b, ProgramOf(b), frames)
    requires i < |b.functions| && frames != [] && frames[|frames| - 1].id == UnitId(b, i)
    requires Arrived(UnitContext(b, i), UnitLive(b, i), UnitTail(b, i), o, m)
    requires o.event.Called?
    ensures LandsAt(b, frames, i, o, s', m)
  {
    hide Build.DistinctStarts, Build.SiblingsAgree, Build.IsUnit, Build.Translated, UnitLive, UnitTail, LiveLabel,
         StackOk, ProgramOf, ResumeText, UnitId, AllLabelsEmitted, OwedAt, AfterLabel, ShortEntry, LabelSteps;
    UnitTextIs(b, i);
    var j := KnownStart(b, o.event.callee);
    s' := AtEntry(j, o.event.callee);
    CallLands(b, frames, i, j, o.rest, o.h, m);
  }

  lemma ReturnedLands(b: Build, frames: seq<Frame>, i: nat, o: Outcome, m: Machine)
    requires b.Valid() && AllLabelsEmitted(b) && b.IsUnit(i) && StackOk(b, ProgramOf(b), frames)
    requires i < |b.functions| && frames != [] && frames[|frames| - 1].id == UnitId(b, i)
    requires Arrived(UnitContext(b, i), UnitLive(b, i), UnitTail(b, i), o, m)
    requires o.event == Returned
    ensures LandsAt(b, frames, i, o, Unwinding, m)
  {
    hide Build.Valid, Build.IsUnit, UnitLive, UnitTail, LiveLabel, StackOk, ProgramOf, ResumeText, UnitId,
         AllLabelsEmitted, UnitContext;
    PopOk(b, ProgramOf(b), frames);
  }

  lemma ArrivedLands(b: Build, frames: seq<Frame>, i: nat, o: Outcome, m: Machine) returns (s': Stage)
    requires b.Valid() && AllLabelsEmitted(b) && b.IsUnit(i) && StackOk(b, ProgramOf(b), frames)
    requires i < |b.functions| && frames != [] && frames[|frames| - 1].id == UnitId(b, i)
    requires Arrived(UnitContext(b, i), UnitLive(b, i), UnitTail(b, i), o, m)
    ensures LandsAt(b, frames, i, o, s', m)
  {
    hide Build.Valid, Build.IsUnit, UnitLive, UnitTail, LiveLabel, StackOk, ProgramOf, ResumeText, UnitId,
         AllLabelsEmitted, UnitContext, LandsAt;
    match o.event {
      case Called(_) => s' := CalledLands(b, frames, i, o, m);
      case Returned =>
        s' := Unwinding;
        ReturnedLands(b, frames, i, o, m);
      case _ =>
        s' := AtLabel(i, m.pc);
        LabelLands(b, frames, i, o, m);
    }
  }

  lemma FellLands(b: Build, frames: seq<Frame>, i: nat, o: Outcome, m: Machine)
    requires b.Valid() && b.IsUnit(i) && StackOk(b, ProgramOf(b), frames)
    requires i < |b.functions| && frames != [] && frames[|frames| - 1].id == UnitId(b, i)
    requires FellOff(UnitContext(b, i), UnitLive(b, i), o, m)
    ensures LandsAt(b, frames, i, o, Fallen, m)
  {
    hide Build.Valid, Build.IsUnit, UnitLive, StackOk, ProgramOf, UnitId, FellOff, OffEnd, UnitContext;
    PopOk(b, ProgramOf(b), frames);
    FellOpen(b, i, o, m);
  }

  lemma FellOpen(b: Build, i: nat, o: Outcome, m: Machine)
    requires i < |b.functions| && b.IsUnit(i) && FellOff(UnitContext(b, i), UnitLive(b, i), o, m)
    ensures OffEnd(b, m.pc) && o.event == Returned && Clean(o.h) && m == At(m.pc, o.h.cpu)
  {
    hide Build.IsUnit, UnitLive, EndsOpen;
    assert OpenUnit(b, i);
  }

  /** Where an event of a unit's code leaves the run. */
  lemma EventLands(b: Build, frames: seq<Frame>, i: nat, o: Outcome, m: Machine) returns (s': Stage)
    requires b.Valid() && AllLabelsEmitted(b) && b.IsUnit(i) && StackOk(b, ProgramOf(b), frames)
    requires i < |b.functions| && frames != [] && frames[|frames| - 1].id == UnitId(b, i)
    requires Landed(UnitContext(b, i), UnitLive(b, i), UnitTail(b, i), o, m)
    ensures LandsAt(b, frames, i, o, s', m)
  {
    hide Build.Valid, Build.IsUnit, UnitLive, UnitTail, StackOk, ProgramOf, UnitId, Arrived, FellOff, LandsAt,
         AllLabelsEmitted;
    if Arrived(UnitContext(b, i), UnitLive(b, i), UnitTail(b, i), o, m) {
      s' := ArrivedLands(b, frames, i, o, m);
    } else {
      s' := Fallen;
      FellLands(b, frames, i, o, m);
    }
  }

  lemma KnownStart(b: Build, t: Word) returns (j: nat)
    requires t as int in b.Known()
    ensures j < |b.functions| && b.functions[j].start == t
  {
    var f :| f in b.functions && f.start == t;
    j :| j < |b.functions| && b.functions[j] == f;
  }

  /** From a label of a good block. */
  lemma LabelStep(b: Build, frames: seq<Frame>, h: Host, i: nat, t: Word, m: Machine)
    returns (s': Stage, m': Machine, k: nat)
    requires b.Valid() && AllLabelsEmitted(b) && GoodStage(b, AtLabel(i, t), h.cpu)
    requires Synced(b, ProgramOf(b), Running(frames, h), AtLabel(i, t), m)
    ensures StepOk(b, Running(frames, h), AtLabel(i, t), m, Step(ProgramOf(b), Running(frames, h)), s', m', k)
    ensures i < |b.functions| && frames != [] && LandsAt(b, frames, i, RunStmts(frames[|frames| - 1].rest, h), s', m')
  {
    hide Build.DistinctStarts, Build.SiblingsAgree, Build.IsUnit, Build.Translated, UnitLive, UnitTail, LiveLabel,
         StackOk, ProgramOf, ResumeText, UnitId, OwedAt, AfterEvent, RunStmts, StepsFrom, GoodBlock, ClosedUnderEdges,
         BlockAt, HomeOf, RefRun, Arrived, Shortfall, Owed, LabelsEmitted, ShortAt, StepsAfter, IsLeader, EventSteps,
         Landed, TailFits, NoOverflow;
    UnitInRange(b, i);
    var c := UnitContext(b, i);
    var live, tail := UnitLive(b, i), UnitTail(b, i);
    var o := RunStmts(frames[|frames| - 1].rest, h);
    UnitTextIs(b, i);
    UnitIsClosedUnit(b, i);
    UnitTailFits(b, i);
    LabelToEvent(c, live, tail, t, h);
    k := StepsFrom(c, BlockAt(c.img, c.f, HomeOf(c, t)), t);
    m' := RefRun(b.img, m, k).value;
    StepsPositive(c, BlockAt(c.img, c.f, HomeOf(c, t)), t);
    s' := EventLands(b, frames, i, o, m');
    ShortAtUnit(b, frames, h, i);
  }

  lemma UnitTailFits(b: Build, i: nat)
    requires i < |b.functions|
    ensures TailFits(UnitContext(b, i), UnitTail(b, i))
  {
    hide NeedsFallThrough, LastLeader, BlockAt, UnitLive;
  }

  lemma StepsPositive(c: Context, b: BasicBlock, x: int)
    ensures StepsFrom(c, b, x) > 0
  {
    hide TransferAt, ExtraLabel;
  }

  lemma UnitIsClosedUnit(b: Build, i: nat)
    requires b.Valid() && b.IsUnit(i)
    ensures ClosedUnderEdges(UnitContext(b, i), UnitLive(b, i))
  {
    hide Build.Valid, ClosedUnderEdges, UnitLive;
    UnitIsClosed(b, i);
  }

  /** From the top of a unit's text. */
  lemma UnitEntryStep(b: Build, frames: seq<Frame>, h: Host, i: nat, a: Word, m: Machine) returns (s': Stage)
    requires b.Valid() && AllLabelsEmitted(b) && b.IsUnit(i)
    requires Synced(b, ProgramOf(b), Running(frames, h), AtEntry(i, a), m) && frames[|frames| - 1].id == UnitId(b, i)
    ensures s' == AtLabel(i, a)
    ensures StepOk(b, Running(frames, h), AtEntry(i, a), m, Step(ProgramOf(b), Running(frames, h)), s', m, 0)
  {
    hide Build.DistinctStarts, Build.SiblingsAgree, Build.IsUnit, Build.Translated, UnitLive, UnitTail, LiveLabel,
         StackOk, ProgramOf, ResumeText, UnitId, OwedAt, RunStmts, ShortAt, StepsAfter, IsLeader, UnitText,
         UnitContinuations, UnitEntries, ShortEntry, AllLabelsEmitted, AfterLabel, LabelSteps;
    UnitInRange(b, i);
    UnitTextIs(b, i);
    UnitEnters(b, i, h, a);
    var c := UnitContext(b, i);
    var o := RunStmts(UnitText(b, i), h);
    ShortAtUnit(b, frames, h, i);
    s' := AtLabel(i, a);
    if o.event == Jumped(a) {
      JumpLands(b, frames, i, o);
    }
    LabelIsOk(b, frames, i, a, ResumeText(c, UnitLive(b, i), UnitTail(b, i), a), o.h, m);
    LeaderOwesNothing(c, a);
  }

  lemma LeaderOwesNothing(c: Context, a: int)
    requires IsLeader(c.img, c.f, a)
    ensures OwedAt(c, a) == 0 && !ShortEntry(c, a)
  {
    hide IsLeader;
  }

  lemma RunWrapper(host: Word, e: Word, h: Host)
    ensures RunStmts(WrapperText(host, e), h) == Outcome(EnteredBody(host), [ReturnStmt], h.(entry := e))
  {
    hide RunStmts;
    RunCons(CallBody(host, e), [ReturnStmt], h);
    assert WrapperText(host, e) == [CallBody(host, e)] + [ReturnStmt];
  }

  /** An alias wrapper hands over to the shared body of its host. */
  lemma WrapperLands(b: Build, h: Host, i: nat, a: Word) returns (j: nat)
    requires b.Valid() && i < |b.functions| && b.functions[i].IsAlias()
    requires if h.pc == 0 then a == b.functions[i].start
             else a == h.pc && b.Translated(i) && a as int in UnitContinuations(b, i)
    ensures b.IsUnit(j) && b.functions[j].aliasWalkLo == b.functions[i].aliasWalkLo
    ensures EntersAt(b, j, h.(entry := b.functions[i].start), a)
  {
    hide Build.DistinctStarts, Build.SiblingsAgree, UnitContinuations;
    j := FirstAlias(b, i, 0);
    if h.pc == 0 {
      GroupHolds(b, 0, i);
    }
  }

  lemma WrapperStep(b: Build, frames: seq<Frame>, h: Host, i: nat, a: Word, m: Machine) returns (s': Stage)
    requires b.Valid() && i < |b.functions| && b.functions[i].IsAlias()
    requires Synced(b, ProgramOf(b), Running(frames, h), AtEntry(i, a), m)
    requires frames[|frames| - 1].id == Func(b.functions[i].start)
    ensures StepOk(b, Running(frames, h), AtEntry(i, a), m, Step(ProgramOf(b), Running(frames, h)), s', m, 0)
  {
    hide Build.Valid, Build.IsUnit, Build.Translated, StackOk, ProgramOf, RunStmts, ShortAt, StepsAfter,
         UnitContinuations, UnitEntries, EntersAt, Enter, Level;
    var f := b.functions[i];
    EntryTextIs(b, i);
    RunWrapper(f.aliasWalkLo, f.start, h);
    var j := WrapperLands(b, h, i, a);
    BodyLands(b, frames, h.(entry := f.start), i, j, a, m);
    NoShortReturn(b, frames, h);
    s' := AtEntry(j, a);
  }

  lemma BodyLands(b: Build, frames: seq<Frame>, h: Host, i: nat, j: nat, a: Word, m: Machine)
    requires b.Valid() && i < |b.functions| && b.functions[i].IsAlias() && StackOk(b, ProgramOf(b), frames)
    requires frames != [] && frames[|frames| - 1].id == Func(b.functions[i].start)
    requires b.IsUnit(j) && b.functions[j].aliasWalkLo == b.functions[i].aliasWalkLo && EntersAt(b, j, h, a)
    requires m == At(a, h.cpu) && h.cpu.gpr[0] == 0
    ensures var p := ProgramOf(b);
            var f := b.functions[i];
            var c' := Enter(p, frames[..|frames| - 1] + [Frame(Func(f.start), [ReturnStmt])], Body(f.aliasWalkLo), h);
            Synced(b, p, c', AtEntry(j, a), m) && c'.h == h && Rank(b, c', AtEntry(j, a)) == 1
  {
    hide Build.DistinctStarts, Build.SiblingsAgree, Build.IsUnit, Build.Translated, StackOk, ProgramOf, UnitText,
         EntersAt;
    var p := ProgramOf(b);
    UnitInRange(b, j);
    BodyRises(b, i, j);
    UnitTextIs(b, j);
    var frames' := frames[..|frames| - 1] + [Frame(Func(b.functions[i].start), [ReturnStmt])];
    ReplaceOk(b, p, frames, [ReturnStmt]);
    PushOk(b, p, frames', Frame(UnitId(b, j), UnitText(b, j)));
  }

  /** A stub reports an unknown dispatch. */
  lemma StubStep(b: Build, frames: seq<Frame>, h: Host, i: nat, a: Word, m: Machine) returns (s': Stage)
    requires b.Valid() && i < |b.functions| && b.Stubbed(b.functions[i])
    requires Synced(b, ProgramOf(b), Running(frames, h), AtEntry(i, a), m)
    requires frames[|frames| - 1].id == Func(b.functions[i].start) && !b.IsUnit(i)
    ensures StepOk(b, Running(frames, h), AtEntry(i, a), m, Step(ProgramOf(b), Running(frames, h)), s', m, 0)
  {
    hide Build.DistinctStarts, Build.SiblingsAgree, Build.IsUnit, Build.Translated, StackOk, ProgramOf, ShortAt,
         StepsAfter, UnitContinuations, UnitEntries, EntersAt;
    EntryTextIs(b, i);
    assert RunStmts([UnknownDispatch], h).event == Fatal;
    NoShortReturn(b, frames, h);
    s' := Halted;
  }

  lemma EntryStep(b: Build, frames: seq<Frame>, h: Host, i: nat, a: Word, m: Machine) returns (s': Stage)
    requires b.Valid() && AllLabelsEmitted(b)
    requires Synced(b, ProgramOf(b), Running(frames, h), AtEntry(i, a), m)
    ensures StepOk(b, Running(frames, h), AtEntry(i, a), m, Step(ProgramOf(b), Running(frames, h)), s', m, 0)
  {
    hide Build.DistinctStarts, Build.SiblingsAgree, StackOk, ProgramOf, ShortAt, UnitContinuations, UnitEntries,
         EntersAt, StepOk, AllLabelsEmitted, Build.FirstOfGroup, Step, Build.Valid;
    var top := frames[|frames| - 1];
    if b.IsUnit(i) && top.id == UnitId(b, i) {
      s' := UnitEntryStep(b, frames, h, i, a, m);
    } else if b.functions[i].IsAlias() {
      s' := WrapperStep(b, frames, h, i, a, m);
    } else {
      s' := StubStep(b, frames, h, i, a, m);
    }
  }

  /** The dispatcher enters the function that owns the published address. */
  lemma DispatchStep(b: Build, h: Host, m: Machine) returns (s': Stage)
    requires b.Valid() && Synced(b, ProgramOf(b), Dispatching(h), Idle, m)
    ensures StepOk(b, Dispatching(h), Idle, m, Step(ProgramOf(b), Dispatching(h)), s', m, 0)
    ensures s' == Halted || (s'.AtEntry? && s'.a == h.pc && Step(ProgramOf(b), Dispatching(h)).Running?)
  {
    hide Build.DistinctStarts, Build.SiblingsAgree, Build.IsUnit, Build.Translated, TextUpTo, OwnerUpTo,
         UnitContinuations, UnitEntries, Level;
    var p := ProgramOf(b);
    if h.pc == 0 || (Func(h.pc) !in p.text && h.pc !in p.owner) {
      s' := Halted;
    } else if Func(h.pc) in p.text {
      var i := TextMember(b, |b.functions|, Func(h.pc));
      UnitIdStart(b, h.pc, i);
      s' := AtEntry(i, h.pc);
    } else {
      var i := OwnerRegistered(b, |b.functions|, h.pc);
      EveryStartIsCallable(b, i);
      s' := AtEntry(i, h.pc);
    }
  }

  lemma UnitIdStart(b: Build, s: Word, i: nat)
    requires Names(b, Func(s), i)
    ensures i < |b.functions| && b.functions[i].start == s
    ensures UnitId(b, i) == Func(s) ==> !b.functions[i].IsAlias()
  {
  }

  // ---- runs ----

  /** The label the run stands at, if any, belongs to a block that meets the side conditions. */
  ghost predicate GoodAt(b: Build, c: Config) {
    c.Running? && c.frames != [] ==>
      forall i: nat, t: Word {:trigger LabelOk(b, c.frames[|c.frames| - 1], c.h, i, t)} ::
        LabelOk(b, c.frames[|c.frames| - 1], c.h, i, t) ==> GoodStage(b, AtLabel(i, t), c.h.cpu)
  }

  lemma InStep(b: Build, c: Config, s: Stage, m: Machine) returns (s': Stage, m': Machine, k: nat)
    requires b.Valid() && AllLabelsEmitted(b) && GoodAt(b, c)
    requires Synced(b, ProgramOf(b), c, s, m)
    ensures StepOk(b, c, s, m, Step(ProgramOf(b), c), s', m', k)
  {
    hide Build.Valid, AllLabelsEmitted, StackOk, ProgramOf, ShortAt, StepsAfter, EntryOk, LabelOk, StepOk, StopOk,
         GoodStage, Step, OffEnd;
    s', m', k := s, m, 0;
    match c {
      case Running(frames, h) =>
        match s {
          case AtEntry(i, a) => s' := EntryStep(b, frames, h, i, a, m);
          case AtLabel(i, t) => s', m', k := LabelStep(b, frames, h, i, t, m);
          case Unwinding => s' := ReturnStep(b, frames, h, m);
          case Fallen => s' := FallenStep(b, c, m);
          case _ => assert false;
        }
      case Dispatching(h) =>
        if s == Fallen {
          s' := FallenStep(b, c, m);
        } else {
          s' := DispatchStep(b, h, m);
        }
      case Stopped(_, _) => StoppedStays(b, c, s, m);
    }
  }

  lemma StoppedStays(b: Build, c: Config, s: Stage, m: Machine)
    requires c.Stopped? && Synced(b, ProgramOf(b), c, s, m)
    ensures StepOk(b, c, s, m, Step(ProgramOf(b), c), s, m, 0)
  {
    hide ProgramOf, StopOk;
  }

  /** The dispatcher about to enter `entry` with registers and memory `cpu`. */
  function Start(entry: Word, cpu: Cpu): Config {
    Dispatching(Host(cpu, entry, false, 0, 0, 0))
  }

  ghost function After(b: Build, entry: Word, cpu: Cpu, n: nat): Config {
    Steps(ProgramOf(b), Start(entry, cpu), n)
  }

  /** The instructions step `n` executes. */
  ghost function Due(b: Build, entry: Word, cpu: Cpu, n: nat): nat {
    if n == 0 then 0 else StepsAfter(b, After(b, entry, cpu, n - 1))
  }

  /** The instructions executed in the first `n` steps. */
  ghost function Executed(b: Build, entry: Word, cpu: Cpu, n: nat): nat {
    if n == 0 then 0 else Executed(b, entry, cpu, n - 1) + Due(b, entry, cpu, n - 1)
  }

  /** The reference machine after as many instructions. */
  ghost function Expected(b: Build, entry: Word, cpu: Cpu, n: nat): Option<Machine> {
    RefRun(b.img, At(entry, cpu), Executed(b, entry, cpu, n))
  }

  /** How often, in the first `n` steps, an entry charged one cycle too few. */
  ghost function Shorts(b: Build, entry: Word, cpu: Cpu, n: nat): int {
    if n == 0 then 0 else Shorts(b, entry, cpu, n - 1) + ShortAt(b, After(b, entry, cpu, n - 1))
  }

  /** Every stage the run has passed met the side conditions. */
  ghost predicate GoodBefore(b: Build, entry: Word, cpu: Cpu, n: nat) {
    forall j: nat :: j < n ==> GoodAt(b, After(b, entry, cpu, j))
  }

  /** The run stands at stage `s`, where the reference machine `m` stands. */
  ghost predicate Stands(b: Build, entry: Word, cpu: Cpu, n: nat, s: Stage, m: Machine) {
    && Expected(b, entry, cpu, n) == Some(m) && Synced(b, ProgramOf(b), After(b, entry, cpu, n), s, m)
    && StageSteps(b, s) == Due(b, entry, cpu, n)
  }

  /** After any number of steps the program stands where the reference machine does after the
      instructions of those steps, and has charged exactly those. */
  lemma {:induction false} RunsInStep(b: Build, entry: Word, cpu: Cpu, n: nat) returns (s: Stage, m: Machine)
    requires b.Valid() && AllLabelsEmitted(b) && cpu.gpr[0] == 0 && GoodBefore(b, entry, cpu, n)
    ensures Stands(b, entry, cpu, n, s, m)
    ensures b.blockMode ==>
              After(b, entry, cpu, n).h.cycles + Shorts(b, entry, cpu, n) == Executed(b, entry, cpu, n) + Ahead(b, s)
  {
    hide Build.Valid, AllLabelsEmitted, ProgramOf, ShortAt, Step, GoodAt, Stands, Ahead, After, Executed, StageSteps,
         Rank, AtShortEntry;
    if n == 0 {
      s, m := Idle, At(entry, cpu);
      StartsInStep(b, entry, cpu);
    } else {
      var s0, m0 := RunsInStep(b, entry, cpu, n - 1);
      s, m := StandsNext(b, entry, cpu, n - 1, s0, m0);
    }
  }

  lemma StartsInStep(b: Build, entry: Word, cpu: Cpu)
    requires cpu.gpr[0] == 0
    ensures Stands(b, entry, cpu, 0, Idle, At(entry, cpu))
    ensures After(b, entry, cpu, 0).h.cycles == 0 == Ahead(b, Idle) == Executed(b, entry, cpu, 0)
  {
    hide ProgramOf;
  }

  /** What a step from stage `s` to stage `s'` charges, and that it gets on. */
  ghost predicate Advances(b: Build, c: Config, s: Stage, c': Config, s': Stage) {
    && (b.blockMode ==> c'.h.cycles + ShortAt(b, c) + Ahead(b, s) == c.h.cycles + StageSteps(b, s) + Ahead(b, s'))
    && (StageSteps(b, s) > 0 || s == Halted || Rank(b, c', s') < Rank(b, c, s))
    && (ShortAt(b, c) != 0 ==> AtShortEntry(b, s'))
  }

  lemma StepAdvances(b: Build, c: Config, s: Stage, m: Machine, c': Config, s': Stage, m': Machine, k: nat)
    requires StepOk(b, c, s, m, c', s', m', k)
    ensures Advances(b, c, s, c', s') && RefRun(b.img, m, k) == Some(m') && Synced(b, ProgramOf(b), c', s', m')
    ensures k == StageSteps(b, s) && StageSteps(b, s') == StepsAfter(b, c)
  {
    hide ProgramOf, ShortAt, Synced, Ahead, Rank, RefRun, StageSteps, StepsAfter, AtShortEntry;
  }

  lemma ExecutedNext(b: Build, entry: Word, cpu: Cpu, n: nat)
    ensures Executed(b, entry, cpu, n + 1) == Executed(b, entry, cpu, n) + Due(b, entry, cpu, n)
    ensures Due(b, entry, cpu, n + 1) == StepsAfter(b, After(b, entry, cpu, n))
  {
    hide ProgramOf, After, StepsAfter;
  }

  /** One step further. */
  lemma StandsNext(b: Build, entry: Word, cpu: Cpu, n: nat, s0: Stage, m0: Machine) returns (s: Stage, m: Machine)
    requires b.Valid() && AllLabelsEmitted(b) && GoodAt(b, After(b, entry, cpu, n)) && Stands(b, entry, cpu, n, s0, m0)
    ensures Stands(b, entry, cpu, n + 1, s, m)
    ensures Executed(b, entry, cpu, n + 1) == Executed(b, entry, cpu, n) + StageSteps(b, s0)
    ensures Advances(b, After(b, entry, cpu, n), s0, After(b, entry, cpu, n + 1), s)
  {
    hide Build.Valid, AllLabelsEmitted, ProgramOf, Step, GoodAt, Synced, RefRun, After, StageSteps, StepsAfter,
         StepOk, Advances, Due, Executed;
    AfterStep(b, entry, cpu, n);
    ExecutedNext(b, entry, cpu, n);
    var k;
    s, m, k := InStep(b, After(b, entry, cpu, n), s0, m0);
    StepAdvances(b, After(b, entry, cpu, n), s0, m0, After(b, entry, cpu, n + 1), s, m, k);
    RefRunSplit(b.img, At(entry, cpu), Executed(b, entry, cpu, n), k);
  }

  lemma AfterStep(b: Build, entry: Word, cpu: Cpu, n: nat)
    ensures After(b, entry, cpu, n + 1) == Step(ProgramOf(b), After(b, entry, cpu, n))
  {
    hide ProgramOf, Step;
  }

  /** Meaning preservation, over whole runs.  With the reference machine at the same entry and
      state, the program's registers and memory are the machine's at every event; the label it
      stands at, the function it enters or the address it publishes is the machine's pc.  It
      stops only at address 0, at an address no function owns, in a stub, or, having run off
      the end of an open unit, with the machine at that end. */
  lemma MeaningPreserved(b: Build, entry: Word, cpu: Cpu, n: nat) returns (s: Stage, m: Machine)
    requires b.Valid() && AllLabelsEmitted(b) && cpu.gpr[0] == 0 && GoodBefore(b, entry, cpu, n)
    ensures Expected(b, entry, cpu, n) == Some(m) && Synced(b, ProgramOf(b), After(b, entry, cpu, n), s, m)
    ensures var c := After(b, entry, cpu, n);
            && m == At(m.pc, c.h.cpu)
            && (c.Running? ==>
                 match s
                 case AtEntry(_, a) => m.pc == a
                 case AtLabel(i, t) => m.pc == t && LabelOk(b, c.frames[|c.frames| - 1], c.h, i, t)
                 case Unwinding => m.pc == c.h.pc
                 case _ => s == Fallen && c.h.pc == 0 && OffEnd(b, m.pc))
            && (c.Dispatching? ==> if s == Idle then m.pc == c.h.pc else s == Fallen && c.h.pc == 0 && OffEnd(b, m.pc))
            && (c.Stopped? ==>
                 match c.reason
                 case Finished => m.pc == 0 <==> !OffEnd(b, m.pc)
                 case DispatchMiss => m.pc == c.h.pc
                 case _ => c.reason == UnknownFunction)
  {
    hide Build.Valid, AllLabelsEmitted, ProgramOf, GoodBefore, StackOk, After, EntryOk, LabelOk, OffEnd, Expected;
    s, m := RunsInStep(b, entry, cpu, n);
    EndIsNotZero(b, m.pc);
  }

  lemma EndIsNotZero(b: Build, a: Word)
    requires b.Valid()
    ensures OffEnd(b, a) ==> a != 0
  {
    hide Build.DistinctStarts, Build.SiblingsAgree, EndsOpen, UnitLive;
  }

  /** With no open unit the run finishes exactly when the machine reaches address 0. */
  lemma FinishesAtZero(b: Build, entry: Word, cpu: Cpu, n: nat)
    requires b.Valid() && AllLabelsEmitted(b) && cpu.gpr[0] == 0 && GoodBefore(b, entry, cpu, n)
    requires forall i: nat :: !OpenUnit(b, i)
    ensures var c := After(b, entry, cpu, n);
            c.Stopped? && c.reason == Finished ==>
              Expected(b, entry, cpu, n).Some? && Expected(b, entry, cpu, n).value.pc == 0
  {
    hide Build.Valid, AllLabelsEmitted, ProgramOf, GoodBefore, After, OpenUnit, Expected, Synced, LabelOk;
    var s, m := MeaningPreserved(b, entry, cpu, n);
  }

  /** Cycle conservation: at every stage the cycles charged are the instructions executed,
      plus what labels ahead have been paid for, if and only if no entry charged too few. */
  lemma CyclesConserved(b: Build, entry: Word, cpu: Cpu, n: nat) returns (s: Stage, m: Machine)
    requires b.Valid() && AllLabelsEmitted(b) && cpu.gpr[0] == 0 && GoodBefore(b, entry, cpu, n) && b.blockMode
    ensures Stands(b, entry, cpu, n, s, m)
    ensures After(b, entry, cpu, n).h.cycles == Executed(b, entry, cpu, n) + Ahead(b, s)
            <==> forall j: nat :: j < n ==> ShortAt(b, After(b, entry, cpu, j)) == 0
  {
    hide Build.Valid, AllLabelsEmitted, ProgramOf, GoodBefore, Stands, After, ShortAt, Ahead, Executed;
    s, m := RunsInStep(b, entry, cpu, n);
    ShortsZero(b, entry, cpu, n);
  }

  lemma {:induction false} ShortsZero(b: Build, entry: Word, cpu: Cpu, n: nat)
    ensures Shorts(b, entry, cpu, n) >= 0
    ensures Shorts(b, entry, cpu, n) == 0 <==> forall j: nat :: j < n ==> ShortAt(b, After(b, entry, cpu, j)) == 0
  {
    hide After, ShortAt;
    if n > 0 {
      ShortsZero(b, entry, cpu, n - 1);
      ShortIsBit(b, After(b, entry, cpu, n - 1));
    }
  }

  lemma ShortIsBit(b: Build, c: Config)
    ensures ShortAt(b, c) == 0 || ShortAt(b, c) == 1
  {
    hide RunStmts, ShortEntry, UnitId, Build.IsUnit;
  }

  // ---- the run goes on ----

  /** Unless it stops, the program executes as many instructions as one waits for. */
  lemma {:induction false} KeepsExecuting(b: Build, entry: Word, cpu: Cpu, want: nat)
    returns (n: nat, s: Stage, m: Machine)
    requires b.Valid() && AllLabelsEmitted(b) && cpu.gpr[0] == 0
    requires forall j: nat :: GoodAt(b, After(b, entry, cpu, j))
    ensures Stands(b, entry, cpu, n, s, m)
    ensures Executed(b, entry, cpu, n) >= want || After(b, entry, cpu, n).Stopped?
  {
    hide Build.Valid, AllLabelsEmitted, Stands, After, GoodAt, Executed;
    if want == 0 {
      n := 0;
      s, m := RunsInStep(b, entry, cpu, 0);
    } else {
      n, s, m := KeepsExecuting(b, entry, cpu, want - 1);
      if Executed(b, entry, cpu, n) < want && !After(b, entry, cpu, n).Stopped? {
        n, s, m := NextExecuted(b, entry, cpu, n, s, m);
      }
    }
  }

  /** From any configuration in step, some later one has executed more, or has stopped. */
  lemma {:induction false} NextExecuted(b: Build, entry: Word, cpu: Cpu, n0: nat, s0: Stage, m0: Machine)
    returns (n: nat, s: Stage, m: Machine)
    requires b.Valid() && AllLabelsEmitted(b) && forall j: nat :: GoodAt(b, After(b, entry, cpu, j))
    requires Stands(b, entry, cpu, n0, s0, m0)
    ensures Stands(b, entry, cpu, n, s, m)
    ensures Executed(b, entry, cpu, n) > Executed(b, entry, cpu, n0) || After(b, entry, cpu, n).Stopped?
    decreases Rank(b, After(b, entry, cpu, n0), s0)
  {
    hide Build.Valid, AllLabelsEmitted, ProgramOf, Stands, Synced, ShortAt, GoodAt, Rank, Step, Ahead, RefRun, After,
         Executed, StageSteps, StepsAfter;
    if After(b, entry, cpu, n0).Stopped? {
      n, s, m := n0, s0, m0;
    } else {
      s, m := StandsNext(b, entry, cpu, n0, s0, m0);
      n := n0 + 1;
      if StageSteps(b, s0) == 0 {
        NotHalted(b, entry, cpu, n0, s0, m0);
        n, s, m := NextExecuted(b, entry, cpu, n0 + 1, s, m);
      }
    }
  }

  lemma NotHalted(b: Build, entry: Word, cpu: Cpu, n: nat, s: Stage, m: Machine)
    requires Stands(b, entry, cpu, n, s, m) && !After(b, entry, cpu, n).Stopped?
    ensures s != Halted
  {
    hide ProgramOf, StackOk, After, Expected, Due;
  }

  /** No emitted label lies in the middle of a block whose delay slot lies outside. */
  ghost predicate NoShortEntries(b: Build) {
    forall i: nat, t :: b.IsUnit(i) && LiveLabel(UnitContext(b, i), UnitLive(b, i), t) ==>
      !ShortEntry(UnitContext(b, i), t)
  }

  /** Then nothing is ever charged short: cycles are instructions. */
  lemma {:induction false} CyclesExact(b: Build, entry: Word, cpu: Cpu, n: nat) returns (s: Stage, m: Machine)
    requires b.Valid() && AllLabelsEmitted(b) && cpu.gpr[0] == 0 && GoodBefore(b, entry, cpu, n) && b.blockMode
    requires NoShortEntries(b)
    ensures Stands(b, entry, cpu, n, s, m)
    ensures After(b, entry, cpu, n).h.cycles == Executed(b, entry, cpu, n) + Ahead(b, s)
  {
    hide Build.Valid, AllLabelsEmitted, ProgramOf, ShortAt, Step, GoodAt, Stands, Synced, Ahead, Rank, RefRun, After,
         Executed, ShortEntry, LiveLabel, UnitLive, UnitContext, Build.IsUnit, StageSteps, StepsAfter;
    if n == 0 {
      s, m := Idle, At(entry, cpu);
      StartsInStep(b, entry, cpu);
    } else {
      var s0, m0 := CyclesExact(b, entry, cpu, n - 1);
      s, m := StandsNext(b, entry, cpu, n - 1, s0, m0);
    }
  }

  /** Two builds of one image, however they cut it into functions, aliases and stubs, agree on
      registers and memory, and on the published address, whenever they have executed equally
      many instructions: entering at an alias runs as the host's own function does. */
  lemma BuildsAgree(b1: Build, b2: Build, entry: Word, cpu: Cpu, n1: nat, n2: nat)
    requires b1.Valid() && AllLabelsEmitted(b1) && b2.Valid() && AllLabelsEmitted(b2) && b1.img == b2.img
            && cpu.gpr[0] == 0
    requires GoodBefore(b1, entry, cpu, n1) && GoodBefore(b2, entry, cpu, n2)
    requires Executed(b1, entry, cpu, n1) == Executed(b2, entry, cpu, n2)
    ensures var c1, c2 := After(b1, entry, cpu, n1), After(b2, entry, cpu, n2);
            && c1.h.cpu == c2.h.cpu
            && (c1.Dispatching? && c2.Dispatching? && c1.h.pc != 0 && c2.h.pc != 0 ==> c1.h.pc == c2.h.pc)
  {
    hide Build.Valid, AllLabelsEmitted, ProgramOf, After, RefRun, GoodBefore, OffEnd, Synced, LabelOk, Executed;
    var s1, m1 := MeaningPreserved(b1, entry, cpu, n1);
    var s2, m2 := MeaningPreserved(b2, entry, cpu, n2);
  }
}
