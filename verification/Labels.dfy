/** Every `goto` of an emitted function finds its label, exactly once, in front of the
    code of the instruction it names. */
module Labels {
  import opened Words
  import opened ControlFlow
  import opened JumpTables
  import opened Emit
  import opened Runtime
  import Translate

  /** All labels of `s` lie in [lo, hi]. */
  ghost predicate LabelsWithin(s: seq<Stmt>, lo: int, hi: int) {
    forall a :: Label(a) in s ==> lo <= a <= hi
  }

  lemma {:induction false} AfterLabelConcat(s: seq<Stmt>, t: seq<Stmt>, a: int)
    ensures Label(a) in s <==> AfterLabel(s, a).Some?
    ensures AfterLabel(s + t, a)
            == if AfterLabel(s, a).Some? then Some(AfterLabel(s, a).value + t) else AfterLabel(t, a)
  {
    if s == [] {
      assert s + t == t;
    } else {
      assert (s + t)[1..] == s[1..] + t;
      AfterLabelConcat(s[1..], t, a);
    }
  }

  // ---- labels of one block ----

  predicate NoLabels(s: seq<Stmt>) {
    forall i :: 0 <= i < |s| ==> !s[i].Label?
  }

  lemma NoLabelsConcat(s: seq<Stmt>, t: seq<Stmt>)
    requires NoLabels(s) && NoLabels(t)
    ensures NoLabels(s + t)
  {
  }

  lemma TransferNoLabels(c: Context, b: BasicBlock)
    ensures NoLabels(TransferExit(c, b))
  {
    hide FieldsOf, CasesFrom, TableOf, ArmTo, BranchLinks, CondSaved;
  }

  lemma SlotNoLabels(img: Image, exit: ControlFlowInstr)
    ensures NoLabels(LinkBefore(exit)) && NoLabels(DelaySlot(img, exit))
  {
    hide FieldsOf, Translate.TranslateInstruction, BranchLinks;
  }

  lemma ExitCodeNoLabels(c: Context, b: BasicBlock)
    ensures NoLabels(ExitCode(c, b)) && NoLabels(FallThrough(c, b)) && NoLabels(ChargeCode(c, b))
  {
    hide TransferExit, LinkBefore, DelaySlot, BlockCycles;
    TransferNoLabels(c, b);
    SlotNoLabels(c.img, b.exit);
    NoLabelsConcat(LinkBefore(b.exit), DelaySlot(c.img, b.exit));
    NoLabelsConcat(LinkBefore(b.exit) + DelaySlot(c.img, b.exit), TransferExit(c, b));
  }

  lemma {:induction false} CodeLabelsWithin(c: Context, b: BasicBlock, x: int)
    requires b.start <= x
    ensures LabelsWithin(CodeFrom(c, b, x), x, b.end)
    decreases b.end - x
  {
    hide ExitCode, FallThrough, ChargeCode, ExtraLabel, Translate.TranslateInstruction, FieldsOf, IsControlFlow,
         DelaySlotInside;
    ExitCodeNoLabels(c, b);
    if !LoopDone(c.img, b, x) {
      CodeLabelsWithin(c, b, x + 4);
    }
  }

  lemma BlockLabelsWithin(c: Context, b: BasicBlock)
    requires b.start <= b.end
    ensures LabelsWithin(BlockCode(c, b), b.start, b.end)
  {
    hide CodeFrom, ChargeCode;
    ExitCodeNoLabels(c, b);
    CodeLabelsWithin(c, b, b.start);
  }

  // ---- resuming inside a block ----

  /** The loop emits an instruction (or reaches the fall-through) at `x` by itself: every
      address before it is readable and it is not the delay slot emitted with the transfer. */
  predicate EmittedAt(img: Image, b: BasicBlock, x: int) {
    && b.start <= x <= b.end && Aligned(x - b.start)
    && (forall y :: b.start <= y <= x && Aligned(y - b.start) ==> img.ReadWord(y).Some?)
    && !(DelaySlotInside(b) && x == b.end)
  }

  /** What follows the label of `x` inside its block. */
  function ResumeCode(c: Context, b: BasicBlock, x: int): seq<Stmt> {
    if x == b.start then ChargeCode(c, b) + CodeFrom(c, b, x)
    else if c.img.ReadWord(x) == None then []
    else InstructionCode(c, b, x, c.img.ReadWord(x).value) + CodeFrom(c, b, x + 4)
  }

  lemma {:induction false} AfterLabelInCode(c: Context, b: BasicBlock, y: int, x: int)
    requires EmittedAt(c.img, b, x) && b.start <= y <= x && Aligned(y - b.start)
    requires x != b.start && ExtraLabel(c.img, c.f, x)
    ensures AfterLabel(CodeFrom(c, b, y), x) == Some(ResumeCode(c, b, x))
    decreases x - y
  {
    hide ExtraLabel, CodeFrom, LoopDone, EmittedAt, InstructionCode, AfterLabel;
    NotDoneBefore(c.img, b, y, x);
    CodeGoesOn(c, b, y);
    var mark := InlineLabel(c, b, y);
    var insn := InstructionCode(c, b, y, c.img.ReadWord(y).value);
    var rest := CodeFrom(c, b, y + 4);
    if y == x {
      assert mark + insn + rest == [Label(x)] + (insn + rest);
      LabelAtOnce(x, insn + rest);
    } else {
      InstructionNoLabels(c, b, y);
      AfterLabelConcat(mark + insn, rest, x);
      AfterLabelInCode(c, b, y + 4, x);
    }
  }

  lemma NotDoneBefore(img: Image, b: BasicBlock, y: int, x: int)
    requires EmittedAt(img, b, x) && b.start <= y <= x && Aligned(y - b.start)
    ensures !LoopDone(img, b, y) && img.ReadWord(y).Some? && (y == x || y + 4 <= x) && Aligned(y + 4 - b.start)
  {
    hide DelaySlotInside;
    assert img.ReadWord(y).Some?;
  }

  lemma LabelAtOnce(x: int, rest: seq<Stmt>)
    ensures AfterLabel([Label(x)] + rest, x) == Some(rest)
  {
    assert ([Label(x)] + rest)[1..] == rest;
  }

  lemma InstructionNoLabels(c: Context, b: BasicBlock, y: int)
    requires c.img.ReadWord(y).Some?
    ensures NoLabels(InstructionCode(c, b, y, c.img.ReadWord(y).value))
  {
    hide ExitCode, FallThrough, ChargeCode, Translate.TranslateInstruction, FieldsOf, IsControlFlow;
    ExitCodeNoLabels(c, b);
  }

  /** The block's code has a label for `x`. */
  predicate LabelPlaced(c: Context, b: BasicBlock, x: int) {
    x == b.start <= b.end || (x != b.start && ExtraLabel(c.img, c.f, x) && EmittedAt(c.img, b, x))
  }

  lemma AfterLabelInBlock(c: Context, b: BasicBlock, x: int)
    requires LabelPlaced(c, b, x)
    ensures AfterLabel(BlockCode(c, b), x) == Some(ResumeCode(c, b, x))
  {
    hide ExtraLabel, ChargeCode, CodeFrom, EmittedAt, ResumeCode, InstructionCode;
    var code := ChargeCode(c, b) + CodeFrom(c, b, b.start);
    assert BlockCode(c, b) == [Label(b.start)] + code;
    assert ([Label(b.start)] + code)[1..] == code;
    if x != b.start {
      ExitCodeNoLabels(c, b);
      AfterLabelConcat(ChargeCode(c, b), CodeFrom(c, b, b.start), x);
      EmittedAtFacts(c.img, b, x);
      AfterLabelInCode(c, b, b.start, x);
    } else {
      ResumeAtStart(c, b);
    }
  }

  lemma EmittedAtFacts(img: Image, b: BasicBlock, x: int)
    requires x == b.start <= b.end || EmittedAt(img, b, x)
    ensures b.start <= x <= b.end && Aligned(x - b.start) && Aligned(b.start - b.start)
  {
  }

  lemma ResumeAtStart(c: Context, b: BasicBlock)
    ensures ResumeCode(c, b, b.start) == ChargeCode(c, b) + CodeFrom(c, b, b.start)
  {
  }

  // ---- labels of a whole body ----

  /** The body from `x` on starts at the next leader. */
  lemma {:induction false} BodyFromNext(c: Context, live: set<int>, x: int)
    requires c.f.Valid() && Aligned(x) && c.f.WalkLo() <= x <= c.f.end
    ensures BodyFrom(c, live, x) == BodyFrom(c, live, NextFrom(c.img, c.f, x))
    decreases c.f.end - x
  {
    hide IsLeader, BlockCode, BlockAt;
    if x < c.f.end && !IsLeader(c.img, c.f, x) {
      BodyFromNext(c, live, x + 4);
      assert [] + BodyFrom(c, live, x + 4) == BodyFrom(c, live, x + 4);
    }
  }

  /** A live block's code, followed by the body behind it. */
  lemma BodyFromBlock(c: Context, live: set<int>, a: int)
    requires c.f.Valid() && IsLeader(c.img, c.f, a) && a in live
    ensures BodyFrom(c, live, a)
            == BlockCode(c, BlockAt(c.img, c.f, a)) + BodyFrom(c, live, BlockEnd(c.img, c.f, a) + 4)
  {
    hide IsLeader, BlockCode, BlockAt;
    LeaderBound(c.img, c.f, a);
    LeaderAligned(c.img, c.f, a);
    BodyFromNext(c, live, a + 4);
  }

  /** A label at or behind leader `a` is not in the code of an earlier block. */
  lemma SkipEarlierBlock(c: Context, live: set<int>, x: int, a: int, t: int)
    requires c.f.Valid() && IsLeader(c.img, c.f, a) && x < a <= t && c.f.WalkLo() <= x
    ensures AfterLabel(BodyFrom(c, live, x), t) == AfterLabel(BodyFrom(c, live, x + 4), t)
  {
    hide IsLeader, BlockCode, BlockEnd, LabelsWithin;
    LeaderBound(c.img, c.f, a);
    var here := if IsLeader(c.img, c.f, x) && x in live then BlockCode(c, BlockAt(c.img, c.f, x)) else [];
    AfterLabelConcat(here, BodyFrom(c, live, x + 4), t);
    if IsLeader(c.img, c.f, x) {
      EarlierLabels(c, x, a, t);
    }
  }

  lemma EarlierLabels(c: Context, x: int, a: int, t: int)
    requires c.f.Valid() && IsLeader(c.img, c.f, a) && IsLeader(c.img, c.f, x) && x < a <= t
    ensures Label(t) !in BlockCode(c, BlockAt(c.img, c.f, x))
  {
    hide IsLeader, BlockCode, BlockEnd;
    BlockShape(c.img, c.f, x);
    LeaderAligned(c.img, c.f, a);
    BlockLabelsWithin(c, BlockAt(c.img, c.f, x));
  }

  /** Finding a label of live block `a` from any earlier address of the body. */
  lemma {:induction false} AfterLabelInBody(c: Context, live: set<int>, x: int, a: int, t: int)
    requires c.f.Valid() && IsLeader(c.img, c.f, a) && a in live
    requires c.f.WalkLo() <= x <= a && Aligned(x)
    requires LabelPlaced(c, BlockAt(c.img, c.f, a), t)
    ensures AfterLabel(BodyFrom(c, live, x), t)
            == Some(ResumeCode(c, BlockAt(c.img, c.f, a), t) + BodyFrom(c, live, BlockEnd(c.img, c.f, a) + 4))
    decreases a - x
  {
    hide IsLeader, BlockCode, EmittedAt, ResumeCode, ExtraLabel, BlockEnd, BodyFrom, BlockAt;
    EmittedAtFacts(c.img, BlockAt(c.img, c.f, a), t);
    BlockStartsAt(c, a);
    if x == a {
      LabelInOwnBlock(c, live, a, t);
    } else {
      LeaderAligned(c.img, c.f, a);
      SkipEarlierBlock(c, live, x, a, t);
      AfterLabelInBody(c, live, x + 4, a, t);
    }
  }

  lemma BlockStartsAt(c: Context, s: int)
    ensures BlockAt(c.img, c.f, s).start == s && BlockAt(c.img, c.f, s).end == BlockEnd(c.img, c.f, s)
  {
  }

  lemma LabelInOwnBlock(c: Context, live: set<int>, a: int, t: int)
    requires c.f.Valid() && IsLeader(c.img, c.f, a) && a in live
    requires LabelPlaced(c, BlockAt(c.img, c.f, a), t)
    ensures AfterLabel(BodyFrom(c, live, a), t)
            == Some(ResumeCode(c, BlockAt(c.img, c.f, a), t) + BodyFrom(c, live, BlockEnd(c.img, c.f, a) + 4))
  {
    hide IsLeader, BlockCode, EmittedAt, ResumeCode, ExtraLabel, BlockEnd, BodyFrom, BlockAt;
    var b := BlockAt(c.img, c.f, a);
    BlockStartsAt(c, a);
    BodyFromBlock(c, live, a);
    AfterLabelInBlock(c, b, t);
    AfterLabelConcat(BlockCode(c, b), BodyFrom(c, live, b.end + 4), t);
  }

  /** A text made of an entry part and a tail without labels around a body. */
  ghost predicate TextAround(text: seq<Stmt>, c: Context, live: set<int>, entry: seq<Stmt>, tail: seq<Stmt>) {
    && text == entry + BodyFrom(c, live, c.f.WalkLo()) + tail
    && NoLabels(entry) && NoLabels(tail)
  }

  /** The goto theorem: jumping to a label of a live block resumes at its instruction. */
  lemma GotoFindsLabel(text: seq<Stmt>, c: Context, live: set<int>, entry: seq<Stmt>, tail: seq<Stmt>, a: int, t: int)
    requires c.f.Valid() && IsLeader(c.img, c.f, a) && a in live
    requires LabelPlaced(c, BlockAt(c.img, c.f, a), t)
    requires TextAround(text, c, live, entry, tail)
    ensures AfterLabel(text, t)
            == Some(ResumeCode(c, BlockAt(c.img, c.f, a), t) + BodyFrom(c, live, BlockEnd(c.img, c.f, a) + 4) + tail)
  {
    hide IsLeader, LabelPlaced, ResumeCode, BlockEnd, BlockAt, BodyFrom;
    var lo := c.f.WalkLo();
    var body := BodyFrom(c, live, lo);
    LeaderBound(c.img, c.f, a);
    AfterLabelInBody(c, live, lo, a, t);
    AfterLabelConcat(body, tail, t);
    assert text == entry + (body + tail);
    AfterLabelConcat(entry, body + tail, t);
  }
}
