/** How deep the C stack gets: nested calls rise through the address space, whatever the
    code does. */
module StackDepth {
  import opened Words
  import opened ControlFlow
  import opened Emit
  import opened Runtime
  import opened BlockRun
  import opened Generate
  import Translate

  // ---- levels ----

  /** The end of a host's range, from its first alias. */
  function HostEnd(b: Build, host: Word, i: nat): Word
    requires i <= |b.functions|
    decreases |b.functions| - i
  {
    if i == |b.functions| then 0
    else if b.functions[i].aliasWalkLo == host then b.functions[i].end
    else HostEnd(b, host, i + 1)
  }

  /** Calls go from lower to higher levels: a wrapper below its body, a body below the
      function behind its host. */
  function Level(b: Build, id: CodeId): int {
    match id
    case Func(s) => 2 * s
    case Body(host) => 2 * HostEnd(b, host, 0) - 1
  }

  ghost predicate Rising(b: Build, p: Program, frames: seq<Frame>) {
    && (forall k :: 0 <= k < |frames| ==> frames[k].id in p.text)
    && (forall j, k :: 0 <= j < k < |frames| ==> Level(b, frames[j].id) < Level(b, frames[k].id))
  }

  function Ids(frames: seq<Frame>): set<CodeId> {
    set k | 0 <= k < |frames| :: frames[k].id
  }

  lemma {:induction false} RisingCount(b: Build, p: Program, frames: seq<Frame>)
    requires Rising(b, p, frames)
    ensures |Ids(frames)| == |frames|
    decreases |frames|
  {
    hide Level;
    if frames != [] {
      var below := frames[..|frames| - 1];
      var top := frames[|frames| - 1].id;
      RisingCount(b, p, below);
      assert Ids(frames) == Ids(below) + {top};
    }
  }

  /** A rising stack holds each function at most once. */
  lemma RisingFits(b: Build, p: Program, frames: seq<Frame>)
    requires Rising(b, p, frames)
    ensures |frames| <= |p.text|
  {
    RisingCount(b, p, frames);
    SubsetSize(Ids(frames), p.text.Keys);
  }

  lemma {:induction false} SubsetSize<T>(s: set<T>, t: set<T>)
    requires s <= t
    ensures |s| <= |t|
  {
    if s != {} {
      var x :| x in s;
      SubsetSize(s - {x}, t - {x});
    }
  }

  // ---- levels of the calls ----

  lemma {:induction false} HostEndIsFirst(b: Build, host: Word, i: nat, j: nat)
    requires i <= j < |b.functions| && b.functions[j].aliasWalkLo == host
    requires forall k :: i <= k < j ==> b.functions[k].aliasWalkLo != host
    ensures HostEnd(b, host, i) == b.functions[j].end
    decreases j - i
  {
    if i < j {
      HostEndIsFirst(b, host, i + 1, j);
    }
  }

  /** A unit calls only the function that starts where it ends, which lies above it. */
  lemma CallRises(b: Build, i: nat)
    requires b.Valid() && b.IsUnit(i)
    ensures Level(b, UnitId(b, i)) < 2 * b.functions[i].end
  {
    hide Build.DistinctStarts, Build.SiblingsAgree;
    var f := b.functions[i];
    if f.IsAlias() {
      HostEndIsFirst(b, f.aliasWalkLo, 0, i);
    }
  }

  /** The first alias of the host of alias `j`: the one that carries the body. */
  lemma {:induction false} FirstAlias(b: Build, j: nat, i: nat) returns (k: nat)
    requires i <= j < |b.functions| && b.functions[j].IsAlias()
    requires forall n :: 0 <= n < i ==> b.functions[n].aliasWalkLo != b.functions[j].aliasWalkLo
    ensures k <= j && b.IsUnit(k) && b.functions[k].aliasWalkLo == b.functions[j].aliasWalkLo
    decreases j - i
  {
    if b.functions[i].aliasWalkLo == b.functions[j].aliasWalkLo {
      k := i;
    } else {
      k := FirstAlias(b, j, i + 1);
    }
  }

  lemma BodyRises(b: Build, j: nat, k: nat)
    requires b.Valid() && j < |b.functions| && b.IsUnit(k) && b.functions[j].IsAlias()
    requires b.functions[k].aliasWalkLo == b.functions[j].aliasWalkLo
    ensures UnitId(b, k) == Body(b.functions[j].aliasWalkLo)
    ensures Level(b, Func(b.functions[j].start)) < Level(b, UnitId(b, k))
  {
    hide Build.DistinctStarts;
    var f := b.functions[k];
    HostEndIsFirst(b, f.aliasWalkLo, 0, k);
    assert f in b.functions && b.functions[j] in b.functions;
  }

  // ---- what the program holds ----

  lemma UnitTextIs(b: Build, i: nat)
    requires b.Valid() && b.IsUnit(i)
    ensures UnitId(b, i) in ProgramOf(b).text && ProgramOf(b).text[UnitId(b, i)] == UnitText(b, i)
    ensures UnitContext(b, i).f == b.functions[i] && UnitContext(b, i).img == b.img && b.functions[i].Valid()
    ensures UnitContext(b, i).blockMode == b.blockMode
  {
    hide UnitText, Build.DistinctStarts, Build.SiblingsAgree;
    UnitTextUpTo(b, |b.functions|, i);
  }

  lemma EntryTextIs(b: Build, i: nat)
    requires b.Valid() && i < |b.functions| && (b.functions[i].IsAlias() || b.Stubbed(b.functions[i]))
    ensures Func(b.functions[i].start) in ProgramOf(b).text
    ensures ProgramOf(b).text[Func(b.functions[i].start)] == EntryText(b, i)
  {
    hide Build.DistinctStarts, Build.SiblingsAgree, EntryText;
    EntryTextUpTo(b, |b.functions|, i);
  }

  // ---- the calls in a text ----

  /** The only function called is the one at `end`, and no body. */
  predicate CallsOnly(s: seq<Stmt>, end: int) {
    forall i :: 0 <= i < |s| ==> (s[i].CallNext? ==> s[i].callee == end) && !s[i].CallBody?
  }

  lemma CallsOnlyConcat(s: seq<Stmt>, t: seq<Stmt>, end: int)
    requires CallsOnly(s, end) && CallsOnly(t, end)
    ensures CallsOnly(s + t, end)
  {
  }

  lemma ExitCalls(c: Context, b: BasicBlock, end: int)
    ensures CallsOnly(ExitCode(c, b), end) && CallsOnly(ChargeCode(c, b), end)
  {
    hide TransferExit, LinkBefore, DelaySlot, BlockCycles;
    TransferCalls(c, b, end);
    SlotCalls(c.img, b.exit, end);
    CallsOnlyConcat(LinkBefore(b.exit), DelaySlot(c.img, b.exit), end);
    CallsOnlyConcat(LinkBefore(b.exit) + DelaySlot(c.img, b.exit), TransferExit(c, b), end);
  }

  lemma TransferCalls(c: Context, b: BasicBlock, end: int)
    ensures CallsOnly(TransferExit(c, b), end)
  {
    hide FieldsOf, CasesFrom, TableOf, ArmTo, BranchLinks, CondSaved;
  }

  lemma SlotCalls(img: Image, exit: ControlFlowInstr, end: int)
    ensures CallsOnly(LinkBefore(exit), end) && CallsOnly(DelaySlot(img, exit), end)
  {
    hide FieldsOf, Translate.TranslateInstruction, BranchLinks;
  }

  /** A block that runs into nothing of its own ends where the function does. */
  lemma FallCalls(c: Context, a: int)
    requires c.f.Valid() && IsLeader(c.img, c.f, a)
    ensures CallsOnly(FallThrough(c, BlockAt(c.img, c.f, a)), c.f.end)
  {
    hide IsLeader, BlockAt;
    if BlockAt(c.img, c.f, a).exit.kind == CfKind.NoTransfer {
      NextOfPlainBlock(c, a);
    }
  }

  lemma InstructionCalls(c: Context, b: BasicBlock, x: int, w: Word, end: int)
    ensures CallsOnly(InlineLabel(c, b, x) + InstructionCode(c, b, x, w), end)
  {
    hide ExitCode, ExtraLabel, IsControlFlow, FieldsOf, Translate.TranslateInstruction, ChargeCode;
    ExitCalls(c, b, end);
  }

  lemma {:induction false} CodeCalls(c: Context, a: int, x: int)
    requires c.f.Valid() && IsLeader(c.img, c.f, a)
    ensures CallsOnly(CodeFrom(c, BlockAt(c.img, c.f, a), x), c.f.end)
    decreases BlockAt(c.img, c.f, a).end - x
  {
    hide IsLeader, BlockAt, InlineLabel, InstructionCode, FallThrough, CodeFrom, CallsOnly;
    var b := BlockAt(c.img, c.f, a);
    if LoopDone(c.img, b, x) {
      CodeStops(c, b, x);
      FallCalls(c, a);
    } else {
      var w := c.img.ReadWord(x).value;
      CodeGoesOn(c, b, x);
      CodeCalls(c, a, x + 4);
      InstructionCalls(c, b, x, w, c.f.end);
      CallsOnlyConcat(InlineLabel(c, b, x) + InstructionCode(c, b, x, w), CodeFrom(c, b, x + 4), c.f.end);
    }
  }

  lemma BlockCalls(c: Context, a: int)
    requires c.f.Valid() && IsLeader(c.img, c.f, a)
    ensures CallsOnly(BlockCode(c, BlockAt(c.img, c.f, a)), c.f.end)
  {
    hide IsLeader, BlockAt, CodeFrom, ChargeCode, ExitCode;
    var b := BlockAt(c.img, c.f, a);
    ExitCalls(c, b, c.f.end);
    CodeCalls(c, a, b.start);
    CallsOnlyConcat(ChargeCode(c, b), CodeFrom(c, b, b.start), c.f.end);
  }

  lemma {:induction false} BodyCalls(c: Context, live: set<int>, x: int)
    requires c.f.Valid()
    ensures CallsOnly(BodyFrom(c, live, x), c.f.end)
    decreases c.f.end - x
  {
    hide IsLeader, BlockAt, BlockCode;
    if x < c.f.end {
      BodyCalls(c, live, x + 4);
      if IsLeader(c.img, c.f, x) && x in live {
        BlockCalls(c, x);
        CallsOnlyConcat(BlockCode(c, BlockAt(c.img, c.f, x)), BodyFrom(c, live, x + 4), c.f.end);
      }
    }
  }

  /** A unit calls nothing but the function that starts where it ends. */
  lemma UnitCalls(b: Build, i: nat)
    requires b.Valid() && b.IsUnit(i)
    ensures CallsOnly(UnitText(b, i), b.functions[i].end)
  {
    hide Build.DistinctStarts, Build.SiblingsAgree, BodyFrom, Continuations, UnitLive, LiveSet, AllBlocks,
         NeedsFallThrough, BlockAt, LastLeader, ContinuationCases;
    var c := UnitContext(b, i);
    BodyCalls(c, UnitLive(b, i), c.f.WalkLo());
    BodyCalls(c, AllBlocks(c), c.f.WalkLo());
  }

  // ---- every call of the program rises ----

  ghost predicate Rises(b: Build, p: Program, id: CodeId, s: Stmt) {
    && (s.CallNext? && Func(s.callee) in p.text ==> Level(b, id) < Level(b, Func(s.callee)))
    && (s.CallBody? && Body(s.host) in p.text ==> Level(b, id) < Level(b, Body(s.host)))
  }

  ghost predicate CallsRise(b: Build, p: Program) {
    forall id, s :: id in p.text && s in p.text[id] ==> Rises(b, p, id, s)
  }

  lemma UnitStmtRises(b: Build, i: nat, s: Stmt)
    requires b.Valid() && b.IsUnit(i) && s in UnitText(b, i)
    ensures Rises(b, ProgramOf(b), UnitId(b, i), s)
  {
    hide Build.Valid, UnitText, ProgramOf, UnitId;
    UnitCalls(b, i);
    CallRises(b, i);
    var k :| 0 <= k < |UnitText(b, i)| && UnitText(b, i)[k] == s;
  }

  lemma WrapperRises(b: Build, i: nat, s: Stmt)
    requires b.Valid() && i < |b.functions| && b.functions[i].IsAlias()
    requires s in WrapperText(b.functions[i].aliasWalkLo, b.functions[i].start)
    ensures Rises(b, ProgramOf(b), Func(b.functions[i].start), s)
  {
    hide Build.Valid, ProgramOf, Level;
    var k := FirstAlias(b, i, 0);
    BodyRises(b, i, k);
  }

  lemma ProgramCallsRise(b: Build)
    requires b.Valid()
    ensures CallsRise(b, ProgramOf(b))
  {
    hide Build.Valid, UnitText, ProgramOf, Rises, Build.IsUnit, Build.Stubbed, UnitId;
    var p := ProgramOf(b);
    forall id, s | id in p.text && s in p.text[id] ensures Rises(b, p, id, s) {
      var i := MemberOf(b, id);
      if b.IsUnit(i) && id == UnitId(b, i) {
        UnitTextIs(b, i);
        UnitStmtRises(b, i, s);
      } else {
        EntryTextIs(b, i);
        if b.functions[i].IsAlias() {
          WrapperRises(b, i, s);
        } else {
          assert s == UnknownDispatch;
          assert Rises(b, p, id, s) by { StubRises(b, p, id); }
        }
      }
    }
  }

  lemma StubRises(b: Build, p: Program, id: CodeId)
    ensures Rises(b, p, id, UnknownDispatch)
  {
  }

  lemma MemberOf(b: Build, id: CodeId) returns (i: nat)
    requires id in ProgramOf(b).text
    ensures i < |b.functions|
    ensures !(b.IsUnit(i) && id == UnitId(b, i)) ==>
              id == Func(b.functions[i].start) && (b.functions[i].IsAlias() || b.Stubbed(b.functions[i]))
  {
    hide TextUpTo;
    i := TextMember(b, |b.functions|, id);
  }

  // ---- runs ----

  /** Each frame runs code of its own function. */
  ghost predicate OwnCode(p: Program, frames: seq<Frame>) {
    forall k :: 0 <= k < |frames| ==> frames[k].id in p.text && forall s :: s in frames[k].rest ==>
      s in p.text[frames[k].id]
  }

  ghost predicate Sound(b: Build, p: Program, c: Config) {
    c.Running? ==> Rising(b, p, c.frames) && OwnCode(p, c.frames)
  }

  /** Running some code leaves code of it, and calls what it calls. */
  lemma {:induction false} RunStaysInside(s: seq<Stmt>, h: Host)
    ensures var o := RunStmts(s, h);
            && (forall t :: t in o.rest ==> t in s)
            && (o.event.Called? ==> CallNext(o.event.callee) in s)
            && (o.event.EnteredBody? ==> exists e :: CallBody(o.event.host, e) in s)
    decreases |s|
  {
    hide Execute;
    if s != [] {
      ExecuteCalls(s[0], h);
      assert s == [s[0]] + s[1..];
      var e := Execute(s[0], h);
      if e.Goes? {
        RunStaysInside(s[1..], e.h);
        var o := RunStmts(s[1..], e.h);
        if o.event.EnteredBody? {
          var entry :| CallBody(o.event.host, entry) in s[1..];
          assert CallBody(o.event.host, entry) in s;
        }
      } else if e.event.EnteredBody? {
        assert CallBody(e.event.host, s[0].entry) in s;
      }
    }
  }

  lemma ExecuteCalls(s: Stmt, h: Host)
    ensures var e := Execute(s, h);
            e.Stops? ==>
              && (e.event.Called? ==> s == CallNext(e.event.callee))
              && (e.event.EnteredBody? ==> s.CallBody? && s == CallBody(e.event.host, s.entry))
  {
    hide FindCase, Translate.Run, Translate.CondOf;
  }

  lemma {:induction false} LabelStaysInside(s: seq<Stmt>, a: int)
    ensures AfterLabel(s, a).Some? ==> forall t :: t in AfterLabel(s, a).value ==> t in s
  {
    if s != [] {
      assert s == [s[0]] + s[1..];
      LabelStaysInside(s[1..], a);
    }
  }

  lemma PushSound(b: Build, p: Program, frames: seq<Frame>, id: CodeId, h: Host)
    requires Rising(b, p, frames) && OwnCode(p, frames)
    requires frames != [] && id in p.text ==> Level(b, frames[|frames| - 1].id) < Level(b, id)
    ensures Sound(b, p, Enter(p, frames, id, h))
  {
    hide Level;
    if id in p.text {
      var frames' := frames + [Frame(id, p.text[id])];
      assert forall k :: 0 <= k < |frames| ==> frames'[k] == frames[k];
      forall j, k | 0 <= j < k < |frames'| ensures Level(b, frames'[j].id) < Level(b, frames'[k].id) {
        if k == |frames| && j < |frames| - 1 {
          assert Level(b, frames[j].id) < Level(b, frames[|frames| - 1].id);
        }
      }
    }
  }

  lemma TopSound(b: Build, p: Program, frames: seq<Frame>, rest: seq<Stmt>)
    requires Rising(b, p, frames) && OwnCode(p, frames) && frames != []
    requires forall s :: s in rest ==> s in p.text[frames[|frames| - 1].id]
    ensures var below := frames[..|frames| - 1];
            var frames' := below + [Frame(frames[|frames| - 1].id, rest)];
            Rising(b, p, below) && OwnCode(p, below) && Rising(b, p, frames') && OwnCode(p, frames')
  {
    hide Level;
    var frames' := frames[..|frames| - 1] + [Frame(frames[|frames| - 1].id, rest)];
    assert forall k :: 0 <= k < |frames| ==> frames'[k].id == frames[k].id;
  }

  lemma StepSound(b: Build, p: Program, c: Config)
    requires CallsRise(b, p) && Sound(b, p, c)
    ensures Sound(b, p, Step(p, c))
  {
    hide Level, RunStmts, AfterLabel;
    match c {
      case Stopped(_, _) =>
      case Dispatching(h) => DispatchSound(b, p, h);
      case Running(frames, h) =>
        if frames != [] {
          var top := frames[|frames| - 1];
          var o := RunStmts(top.rest, h);
          RunStaysInside(top.rest, h);
          TopSound(b, p, frames, o.rest);
          EventSound(b, p, frames, o);
        }
    }
  }

  lemma DispatchSound(b: Build, p: Program, h: Host)
    ensures Sound(b, p, Dispatch(p, h))
  {
    hide Level, Enter;
    PushSound(b, p, [], Func(h.pc), SetPc(h, 0));
    if h.pc in p.owner {
      PushSound(b, p, [], Func(p.owner[h.pc]), h);
    }
  }

  lemma EventSound(b: Build, p: Program, frames: seq<Frame>, o: Outcome)
    requires CallsRise(b, p) && Rising(b, p, frames) && OwnCode(p, frames) && frames != []
    requires var text := p.text[frames[|frames| - 1].id];
             && (forall s :: s in o.rest ==> s in text)
             && (o.event.Called? ==> CallNext(o.event.callee) in text)
             && (o.event.EnteredBody? ==> exists e :: CallBody(o.event.host, e) in text)
    ensures Sound(b, p, AfterEvent(p, frames[..|frames| - 1], frames[|frames| - 1].id, o))
  {
    hide Level, AfterLabel, Enter;
    var id := frames[|frames| - 1].id;
    var text := p.text[id];
    TopSound(b, p, frames, o.rest);
    var frames' := frames[..|frames| - 1] + [Frame(id, o.rest)];
    match o.event {
      case Jumped(a) =>
        LabelStaysInside(text, a);
        if AfterLabel(text, a).Some? {
          TopSound(b, p, frames, AfterLabel(text, a).value);
        }
      case Called(callee) =>
        assert Rises(b, p, id, CallNext(callee));
        PushSound(b, p, frames', Func(callee), o.h);
      case EnteredBody(host) =>
        var e :| CallBody(host, e) in text;
        assert Rises(b, p, id, CallBody(host, e));
        PushSound(b, p, frames', Body(host), o.h);
      case _ =>
    }
  }

  /** The bound: from the dispatcher on, for every image, entry and state, and however long
      the run, the C stack is never deeper than the number of emitted functions and bodies.
      Nothing is asked of the code. */
  lemma {:induction false} StackBounded(b: Build, h: Host, n: nat)
    requires b.Valid()
    ensures var c := Steps(ProgramOf(b), Dispatching(h), n);
            Sound(b, ProgramOf(b), c) && (c.Running? ==> |c.frames| <= |ProgramOf(b).text|)
  {
    hide Build.Valid, ProgramOf, Step, Rising, OwnCode;
    var p := ProgramOf(b);
    if n > 0 {
      StackBounded(b, h, n - 1);
      ProgramCallsRise(b);
      StepSound(b, p, Steps(p, Dispatching(h), n - 1));
    }
    var c := Steps(p, Dispatching(h), n);
    if c.Running? {
      RisingFits(b, p, c.frames);
    }
  }
}
