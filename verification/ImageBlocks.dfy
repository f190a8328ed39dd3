/** Basic blocks of a whole image: BasicBlockAnalyzer, which cuts the decoded instructions
    at leaders and takes a delay slot into the block of its branch even when it is a leader
    itself.

    Decoding is not part of this: an instruction is given by the flags the analyser reads. */
module ImageBlocks {
  import opened ControlFlow
  import opened Words

  datatype Insn = Insn(isBranch: bool, isJump: bool, isJrRa: bool, opcode: int, branchTarget: int, jumpTarget: int) {
    /** A delay slot follows. */
    predicate HasSlot() {
      isBranch || isJump
    }
  }

  /** Consecutive instructions from address `load` on, and the entry point. */
  datatype Code = Code(load: int, insns: seq<Insn>, entry: int) {
    function End(): int {
      load + 4 * |insns|
    }

    function AddressOf(i: int): int {
      load + 4 * i
    }

    predicate Has(a: int) {
      load <= a < End() && Aligned(a - load)
    }

    function IndexOf(a: int): int {
      (a - load) / 4
    }

    /** Aligned code above address 4 whose transfers have aligned targets. */
    ghost predicate Valid() {
      && 4 < load && Aligned(load) && Aligned(entry) && End() <= 0x1_0000_0000
      && forall i :: 0 <= i < |insns| ==>
           && !(insns[i].isBranch && insns[i].isJump)
           && (insns[i].isBranch ==> Aligned(insns[i].branchTarget))
           && (insns[i].isJump ==> Aligned(insns[i].jumpTarget))
    }
  }

  // ---- leaders ----

  /** What instruction `i` makes a leader. */
  predicate Leads(code: Code, i: int, a: int)
    requires 0 <= i < |code.insns|
  {
    var insn := code.insns[i];
    && insn.HasSlot()
    && (|| (a == code.AddressOf(i) + 8 && a < code.End())
        || (insn.isBranch && a == insn.branchTarget && a != 0 && code.load <= a < code.End())
        || (insn.isJump && a == insn.jumpTarget && a != 0 && code.load <= a < code.End()))
  }

  predicate LedBefore(code: Code, n: int, a: int)
    requires 0 <= n <= |code.insns|
  {
    exists i :: 0 <= i < n && Leads(code, i, a)
  }

  predicate IsLeader(code: Code, a: int) {
    a == code.entry || LedBefore(code, |code.insns|, a)
  }

  lemma OneMoreLeads(code: Code, i: int, a: int)
    requires 0 <= i < |code.insns|
    ensures LedBefore(code, i + 1, a) <==> LedBefore(code, i, a) || Leads(code, i, a)
  {
    hide Leads;
  }

  lemma NothingLedYet(code: Code)
    ensures forall a :: !LedBefore(code, 0, a)
  {
  }

  /** The leaders one instruction adds. */
  method AddLeads(code: Code, i: int, leaders: seq<int>) returns (r: seq<int>)
    requires 0 <= i < |code.insns|
    ensures forall a :: a in r <==> a in leaders || Leads(code, i, a)
  {
    r := leaders;
    var insn := code.insns[i];
    if insn.isBranch || insn.isJump {
      var fallThrough := code.AddressOf(i) + 8;
      if fallThrough < code.End() {
        r := r + [fallThrough];
      }
      if insn.isBranch && insn.branchTarget != 0 && code.load <= insn.branchTarget < code.End() {
        r := r + [insn.branchTarget];
      }
      if insn.isJump && insn.jumpTarget != 0 && code.load <= insn.jumpTarget < code.End() {
        r := r + [insn.jumpTarget];
      }
    }
  }

  /** find_leaders. */
  method FindLeaders(code: Code) returns (leaders: seq<int>)
    ensures StrictlyIncreasing(leaders) && forall a :: a in leaders <==> IsLeader(code, a)
  {
    hide StrictlyIncreasing, LedBefore, Leads;
    leaders := [code.entry];
    NothingLedYet(code);
    var i := 0;
    while i < |code.insns|
      invariant 0 <= i <= |code.insns|
      invariant forall a :: a in leaders <==> a == code.entry || LedBefore(code, i, a)
    {
      leaders := AddLeads(code, i, leaders);
      forall a ensures LedBefore(code, i + 1, a) <==> LedBefore(code, i, a) || Leads(code, i, a) {
        OneMoreLeads(code, i, a);
      }
      i := i + 1;
    }
    leaders := SortUnique(leaders);
  }

  // ---- one block ----

  datatype Block = Block(start: int, end: int, count: int, hasSlot: bool, slotAddr: int, succs: seq<int>,
    preds: seq<int>) {
    predicate Contains(a: int) {
      start <= a <= end
    }
  }

  /** Index of the last instruction of the block scanned from `i` on: up to a transfer and
      its delay slot, the instruction before the next leader, or the end of the code. */
  function LastIndex(code: Code, i: int, next: int): int
    requires 0 <= i < |code.insns|
    decreases |code.insns| - i
  {
    if code.insns[i].HasSlot() then (if i + 1 < |code.insns| then i + 1 else i)
    else if i + 1 >= |code.insns| || code.AddressOf(i + 1) >= next then i
    else LastIndex(code, i + 1, next)
  }

  /** The transfer the scan from `i` on meets, if any. */
  function TransferIndex(code: Code, i: int, next: int): Option<int>
    requires 0 <= i < |code.insns|
    decreases |code.insns| - i
  {
    if code.insns[i].HasSlot() then Some(i)
    else if i + 1 >= |code.insns| || code.AddressOf(i + 1) >= next then None
    else TransferIndex(code, i + 1, next)
  }

  /** The extent of a block. */
  function Extent(code: Code, start: int, next: int): Block
    requires code.Has(start)
  {
    var i := code.IndexOf(start);
    var last := LastIndex(code, i, next);
    var t := TransferIndex(code, i, next);
    var slot := t.Some? && t.value + 1 < |code.insns|;
    Block(start, code.AddressOf(last), last - i + 1, t.Some?, if slot then code.AddressOf(last) else 0, [], [])
  }

  /** The successors, as the analyser collects them before sorting. */
  function RawSuccessors(code: Code, b: Block): seq<int> {
    var branch :=
      if b.hasSlot && b.count >= 2 then (if code.Has(b.slotAddr - 4) then Some(code.insns[code.IndexOf(b.slotAddr - 4)])
        else None)
      else if code.Has(b.end) && code.insns[code.IndexOf(b.end)].HasSlot() then Some(code.insns[code.IndexOf(b.end)])
      else None;
    if branch == None then (if b.end + 4 < code.End() then [b.end + 4] else [])
    else
      var insn := branch.value;
      var after := if b.hasSlot then b.slotAddr + 4 else b.end + 4;
      if insn.isBranch then
        (if after < code.End() then [after] else [])
          + (if code.load <= insn.branchTarget < code.End() then [insn.branchTarget] else [])
      else if insn.isJrRa then []
      else if insn.opcode == 0x03 then (if after < code.End() then [after] else [])
      else if code.load <= insn.jumpTarget < code.End() then [insn.jumpTarget]
      else []
  }

  function BlockOf(code: Code, start: int, next: int): Block
    requires code.Has(start)
  {
    var b := Extent(code, start, next);
    b.(succs := SortUnique(RawSuccessors(code, b)))
  }

  /** The scan, as the loop it is. */
  method ScanBlock(code: Code, start: int, next: int) returns (b: Block)
    requires code.Has(start) && start < next
    ensures b == Extent(code, start, next)
  {
    hide Insn.HasSlot;
    var first := code.IndexOf(start);
    b := Block(start, start, 0, false, 0, [], []);
    var inSlot := false;
    var ended := false;
    var i := first;
    while i < |code.insns| && !ended
      invariant first <= i <= |code.insns|
      invariant b.start == start && b.succs == [] && b.preds == [] && b.count == i - first
      invariant !ended && !inSlot ==>
                  && i < |code.insns| && !b.hasSlot && b.slotAddr == 0
                  && (i == first || code.AddressOf(i) < next)
                  && LastIndex(code, first, next) == LastIndex(code, i, next)
                  && TransferIndex(code, first, next) == TransferIndex(code, i, next)
      invariant !ended && inSlot ==>
                  && i > first && b.hasSlot && b.slotAddr == 0 && b.end == code.AddressOf(i - 1)
                  && TransferIndex(code, first, next) == Some(i - 1)
                  && LastIndex(code, first, next) == if i < |code.insns| then i else i - 1
      invariant ended ==> b == Extent(code, start, next)
      decreases |code.insns| - i, if ended then 0 else 1
    {
      var insn := code.insns[i];
      if !inSlot && code.AddressOf(i) >= next && code.AddressOf(i) != start {
        break;
      }
      b := b.(end := code.AddressOf(i), count := b.count + 1);
      if inSlot {
        b := b.(slotAddr := code.AddressOf(i));
        ended := true;
      } else if insn.HasSlot() {
        b := b.(hasSlot := true);
        inSlot := true;
      } else if i + 1 >= |code.insns| || code.AddressOf(i + 1) >= next {
        ended := true;
      }
      i := i + 1;
    }
  }

  // ---- where blocks start and end ----

  lemma LeaderIsAligned(code: Code, a: int)
    requires code.Valid() && IsLeader(code, a)
    ensures Aligned(a) && (a != code.entry ==> code.Has(a))
  {
    if a != code.entry {
      var i :| 0 <= i < |code.insns| && Leads(code, i, a);
    }
  }

  /** The first leader from `x` on, or the end of the code. */
  function NextLeader(code: Code, x: int): int
    decreases code.End() - x
  {
    if x >= code.End() then code.End() else if IsLeader(code, x) then x else NextLeader(code, x + 4)
  }

  lemma {:induction false} NextLeaderIsNext(code: Code, x: int)
    requires code.Valid() && Aligned(x) && code.load <= x <= code.End()
    ensures var n := NextLeader(code, x);
            && x <= n <= code.End() && Aligned(n) && (n < code.End() ==> IsLeader(code, n))
            && forall y :: x <= y < n ==> !IsLeader(code, y)
    decreases code.End() - x
  {
    hide IsLeader, Code.Valid;
    AlignedEnds(code);
    if x < code.End() && !IsLeader(code, x) {
      NextLeaderIsNext(code, x + 4);
      forall y | x < y < x + 4 ensures !IsLeader(code, y) {
        if IsLeader(code, y) { LeaderIsAligned(code, y); }
      }
    }
  }

  lemma AlignedEnds(code: Code)
    requires code.Valid()
    ensures Aligned(code.load) && Aligned(code.End()) && 4 < code.load
  {
  }

  /** The last leader at or before `x`. */
  function Home(code: Code, x: int): int
    decreases x - code.load
  {
    if x <= code.load || IsLeader(code, x) then x else Home(code, x - 4)
  }

  /** The block at leader `a`. */
  function BlockAtLeader(code: Code, a: int): Block
    requires code.Has(a)
  {
    BlockOf(code, a, NextLeader(code, a + 4))
  }

  /** Where a scan from `i` on ends: just before `next`, or on it when it is the delay slot
      of the transfer before. */
  lemma {:induction false} ScanEnds(code: Code, i: int, next: int)
    requires code.Valid() && 0 <= i < |code.insns| && code.AddressOf(i) < next <= code.End() && Aligned(next)
    requires forall y :: code.AddressOf(i) < y < next ==> !IsLeader(code, y)
    ensures var last := LastIndex(code, i, next);
            var t := TransferIndex(code, i, next);
            && i <= last < |code.insns|
            && (t == None ==> code.AddressOf(last) + 4 == next && forall k :: i <= k <= last ==>
              !code.insns[k].HasSlot())
            && (t.Some? ==>
                 && i <= t.value && code.AddressOf(t.value) < next && code.insns[t.value].HasSlot()
                 && (forall k :: i <= k < t.value ==> !code.insns[k].HasSlot())
                 && last == (if t.value + 1 < |code.insns| then t.value + 1 else t.value)
                 && (code.AddressOf(last) + 4 == next || (last == t.value + 1 && code.AddressOf(last) == next)))
    decreases |code.insns| - i
  {
    hide IsLeader;
    if code.insns[i].HasSlot() {
      if code.AddressOf(i) + 8 < code.End() {
        AfterSlotIsLeader(code, i);
      }
    } else if i + 1 < |code.insns| && code.AddressOf(i + 1) < next {
      ScanEnds(code, i + 1, next);
    }
  }

  lemma AfterSlotIsLeader(code: Code, i: int)
    requires 0 <= i < |code.insns| && code.insns[i].HasSlot() && code.AddressOf(i) + 8 < code.End()
    ensures IsLeader(code, code.AddressOf(i) + 8)
  {
    assert Leads(code, i, code.AddressOf(i) + 8);
  }

  lemma NoneBetween(code: Code, a: int)
    requires code.Valid() && Aligned(a)
    ensures forall y :: a < y < a + 4 ==> !IsLeader(code, y)
  {
    hide IsLeader;
    forall y | a < y < a + 4 ensures !IsLeader(code, y) {
      if IsLeader(code, y) { LeaderIsAligned(code, y); }
    }
  }

  lemma ExtentEnds(code: Code, a: int)
    requires code.Valid() && code.Has(a)
    ensures var b := BlockAtLeader(code, a);
            var next := NextLeader(code, a + 4);
            && b.start == a && a <= b.end < code.End() && Aligned(b.end) && a < next <= code.End()
            && (b.end + 4 == next || (b.end == next && b.hasSlot && b.slotAddr == b.end))
            && (b.hasSlot ==> b.slotAddr == 0 || b.slotAddr == b.end)
  {
    hide IsLeader, Code.Valid, NextLeader, LastIndex, TransferIndex, RawSuccessors, SortUnique, Insn.HasSlot;
    AlignedEnds(code);
    NextLeaderIsNext(code, a + 4);
    NoneBetween(code, a);
    assert code.AddressOf(code.IndexOf(a)) == a;
    ScanEnds(code, code.IndexOf(a), NextLeader(code, a + 4));
  }

  lemma {:induction false} HomeIsLast(code: Code, x: int, first: int)
    requires code.Valid() && code.Has(x) && code.Has(first) && IsLeader(code, first) && first <= x
    ensures var h := Home(code, x);
            && first <= h <= x && code.Has(h) && IsLeader(code, h) && forall y :: h < y <= x ==> !IsLeader(code, y)
    decreases x - code.load
  {
    hide IsLeader;
    if x > code.load && !IsLeader(code, x) {
      HomeIsLast(code, x - 4, first);
      forall y | x - 4 < y <= x ensures !IsLeader(code, y) {
        if IsLeader(code, y) { LeaderIsAligned(code, y); }
      }
    }
  }

  /** From the first block on, each instruction lies in the block of the last leader at or
      before it, and otherwise only in the block before, when it is that block's delay slot
      and a leader itself. */
  lemma BlocksCover(code: Code, x: int, a: int, first: int)
    requires code.Valid() && code.Has(x) && code.Has(a) && IsLeader(code, a)
    requires code.Has(first) && IsLeader(code, first) && first <= x
    ensures BlockAtLeader(code, a).Contains(x)
            <==> a == Home(code, x)
                 || (a < x && IsLeader(code, x) && BlockAtLeader(code, a).hasSlot
                   && BlockAtLeader(code, a).slotAddr == x)
  {
    hide IsLeader, BlockAtLeader, Code.Valid, Home, NextLeader, Aligned, Code.Has;
    HomeIsLast(code, x, first);
    var h, next := Home(code, x), NextLeader(code, a + 4);
    ExtentEnds(code, a);
    AlignedPlaces(code, a);
    AlignedPlaces(code, x);
    AlignedPlaces(code, h);
    AlignedEnds(code);
    NextLeaderIsNext(code, a + 4);
    if a <= x < next {
      AlignedApart(x, next);
      if a < h {
        AlignedApart(a, h);
      }
      assert h == a;
    } else if next <= x {
      assert a < next <= h;
    }
  }

  lemma AlignedPlaces(code: Code, a: int)
    requires code.Valid() && code.Has(a)
    ensures Aligned(a) && Aligned(a + 4) && code.load <= a && a + 4 <= code.End()
  {
  }

  /** So a second block that holds it is unique. */
  lemma SecondBlockUnique(code: Code, x: int, a: int, b: int, first: int)
    requires code.Valid() && code.Has(x) && code.Has(a) && IsLeader(code, a) && code.Has(b) && IsLeader(code, b)
    requires code.Has(first) && IsLeader(code, first) && first <= x && first <= a && first <= b
    requires BlockAtLeader(code, a).Contains(x) && BlockAtLeader(code, b).Contains(x)
    requires a != Home(code, x) && b != Home(code, x)
    ensures a == b == Home(code, x - 4)
  {
    hide IsLeader, BlockAtLeader;
    BlocksCover(code, x, a, first);
    BlocksCover(code, x, b, first);
    SlotBlockIsBefore(code, x, a, first);
    SlotBlockIsBefore(code, x, b, first);
  }

  lemma SlotBlockIsBefore(code: Code, x: int, a: int, first: int)
    requires code.Valid() && code.Has(x) && code.Has(a) && IsLeader(code, a) && IsLeader(code, x) && a < x
    requires code.Has(first) && IsLeader(code, first) && first <= a
    requires BlockAtLeader(code, a).slotAddr == x && BlockAtLeader(code, a).hasSlot
    ensures a == Home(code, x - 4)
  {
    hide IsLeader, BlockAtLeader, Code.Valid, Home, NextLeader, Aligned, Code.Has;
    AlignedEnds(code);
    AlignedPlaces(code, a);
    AlignedPlaces(code, x);
    ExtentEnds(code, a);
    NextLeaderIsNext(code, a + 4);
    NoneBetween(code, a);
    AlignedApart(a, x);
    PlaceBefore(code, x, a);
    HomeIs(code, x - 4, a, first);
  }

  lemma PlaceBefore(code: Code, x: int, a: int)
    requires code.Has(x) && code.load <= a && a + 4 <= x
    ensures code.Has(x - 4)
  {
  }

  lemma HomeIs(code: Code, x: int, a: int, first: int)
    requires code.Valid() && code.Has(x) && code.Has(first) && IsLeader(code, first) && first <= a <= x
    requires IsLeader(code, a) && forall y :: a < y <= x ==> !IsLeader(code, y)
    ensures Home(code, x) == a
  {
    hide IsLeader, Code.Valid, Home, NextLeader;
    HomeIsLast(code, x, first);
  }

  // ---- successors ----

  predicate IsBlockStart(code: Code, s: int) {
    code.Has(s) && IsLeader(code, s)
  }

  /** The image ends in a transfer that is a block of its own, so its delay slot is missing
      and the analyser takes address 4 for what follows it. */
  predicate CutOff(code: Code, a: int)
    requires code.Has(a)
  {
    var insn := code.insns[code.IndexOf(a)];
    a + 4 == code.End() && (insn.isBranch || (insn.isJump && !insn.isJrRa && insn.opcode == 0x03))
  }

  lemma TargetIsLeader(code: Code, i: int)
    requires code.Valid() && 0 <= i < |code.insns|
    ensures var insn := code.insns[i];
            && (insn.isBranch && code.load <= insn.branchTarget < code.End() ==> IsBlockStart(code, insn.branchTarget))
            && (insn.isJump && code.load <= insn.jumpTarget < code.End() ==> IsBlockStart(code, insn.jumpTarget))
  {
    var insn := code.insns[i];
    if insn.isBranch && code.load <= insn.branchTarget < code.End() {
      assert Leads(code, i, insn.branchTarget);
    }
    if insn.isJump && code.load <= insn.jumpTarget < code.End() {
      assert Leads(code, i, insn.jumpTarget);
    }
  }

  /** Every successor of a block is a block, unless the image cuts the block off. */
  lemma SuccessorsAreBlocks(code: Code, a: int)
    requires code.Valid() && code.Has(a) && IsLeader(code, a)
    ensures (forall s :: s in BlockAtLeader(code, a).succs ==> IsBlockStart(code, s)) <==> !CutOff(code, a)
  {
    hide IsLeader, Code.Valid, NextLeader, LastIndex, TransferIndex, IsBlockStart;
    AlignedEnds(code);
    var i, next := code.IndexOf(a), NextLeader(code, a + 4);
    NextLeaderIsNext(code, a + 4);
    NoneBetween(code, a);
    assert code.AddressOf(i) == a;
    ScanEnds(code, i, next);
    var b := BlockAtLeader(code, a);
    var raw := RawSuccessors(code, Extent(code, a, next));
    assert forall s :: s in b.succs <==> s in raw;
    var t := TransferIndex(code, i, next);
    if t == None {
      PlainSuccessors(code, a, raw);
    } else if t.value + 1 < |code.insns| {
      SlotSuccessors(code, a, t.value, raw);
    } else {
      CutSuccessors(code, a, t.value, raw);
    }
  }

  lemma PlainSuccessors(code: Code, a: int, raw: seq<int>)
    requires code.Valid() && code.Has(a) && IsLeader(code, a)
    requires var i, next := code.IndexOf(a), NextLeader(code, a + 4);
             && raw == RawSuccessors(code, Extent(code, a, next)) && TransferIndex(code, i, next) == None
             && code.AddressOf(LastIndex(code, i, next)) + 4 == next && i <= LastIndex(code, i, next) < |code.insns|
             && forall k :: i <= k <= LastIndex(code, i, next) ==> !code.insns[k].HasSlot()
    ensures (forall s :: s in raw ==> IsBlockStart(code, s)) && !CutOff(code, a)
  {
    hide IsLeader, Code.Valid, NextLeader, LastIndex, TransferIndex;
    AlignedEnds(code);
    NextLeaderIsNext(code, a + 4);
    var i, next := code.IndexOf(a), NextLeader(code, a + 4);
    var last := LastIndex(code, i, next);
    assert code.IndexOf(code.AddressOf(last)) == last;
    assert !code.insns[i].HasSlot();
  }

  lemma SlotSuccessors(code: Code, a: int, t: int, raw: seq<int>)
    requires code.Valid() && code.Has(a) && IsLeader(code, a)
    requires var i, next := code.IndexOf(a), NextLeader(code, a + 4);
             && raw == RawSuccessors(code, Extent(code, a, next)) && TransferIndex(code, i, next) == Some(t)
             && i <= t && t + 1 < |code.insns| && code.insns[t].HasSlot() && LastIndex(code, i, next) == t + 1
    ensures (forall s :: s in raw ==> IsBlockStart(code, s))
            && (code.insns[t].HasSlot() && code.IndexOf(a) <= t ==> !CutOff(code, a))
  {
    hide IsLeader, Code.Valid, NextLeader, LastIndex, TransferIndex;
    AlignedEnds(code);
    TargetIsLeader(code, t);
    assert code.IndexOf(code.AddressOf(t)) == t && code.AddressOf(t + 1) - 4 == code.AddressOf(t);
    if code.AddressOf(t) + 8 < code.End() {
      AfterSlotIsLeader(code, t);
    }
  }

  lemma CutSuccessors(code: Code, a: int, t: int, raw: seq<int>)
    requires code.Valid() && code.Has(a) && IsLeader(code, a)
    requires var i, next := code.IndexOf(a), NextLeader(code, a + 4);
             && raw == RawSuccessors(code, Extent(code, a, next)) && TransferIndex(code, i, next) == Some(t)
             && i <= t && t + 1 == |code.insns| && code.insns[t].HasSlot() && LastIndex(code, i, next) == t
    ensures (forall s :: s in raw ==> IsBlockStart(code, s)) <==> !CutOff(code, a)
  {
    hide IsLeader, Code.Valid, NextLeader, LastIndex, TransferIndex;
    AlignedEnds(code);
    TargetIsLeader(code, t);
    assert code.IndexOf(code.AddressOf(t)) == t;
    assert !IsBlockStart(code, 4);
    if CutOff(code, a) {
      assert raw[0] == 4 && raw[0] in raw;
    }
  }

  /** An image whose only instruction is a call. */
  const LONE_CALL := Code(0x1000, [Insn(false, true, false, 0x03, 0, 0x1000)], 0x1000)

  lemma LoneCallShape()
    ensures NextLeader(LONE_CALL, 0x1004) == 0x1004
    ensures LastIndex(LONE_CALL, 0, 0x1004) == 0 && TransferIndex(LONE_CALL, 0, 0x1004) == Some(0)
  {
  }

  lemma LoneCallExtent()
    ensures Extent(LONE_CALL, 0x1000, 0x1004) == Block(0x1000, 0x1000, 1, true, 0, [], [])
  {
    hide LastIndex, TransferIndex;
    LoneCallShape();
  }

  lemma LoneCallSuccessors()
    ensures RawSuccessors(LONE_CALL, Block(0x1000, 0x1000, 1, true, 0, [], [])) == [4]
  {
  }

  lemma OneSorted(x: int)
    ensures x in SortUnique([x])
  {
    hide SortUnique;
    assert x in [x];
  }

  /** Its block is said to lead to address 4. */
  lemma CutOffExample()
    ensures LONE_CALL.Valid() && IsBlockStart(LONE_CALL, 0x1000) && !IsBlockStart(LONE_CALL, 4)
    ensures 4 in BlockAtLeader(LONE_CALL, 0x1000).succs
  {
    hide NextLeader, Extent, RawSuccessors, SortUnique;
    LoneCallShape();
    LoneCallExtent();
    LoneCallSuccessors();
    OneSorted(4);
  }

  // ---- predecessors ----

  /** The starts of the first `n` blocks that lead to `s`, in order. */
  function PredsUpTo(blocks: seq<Block>, n: nat, s: int): seq<int>
    requires n <= |blocks|
  {
    if n == 0 then []
    else PredsUpTo(blocks, n - 1, s) + (if s in blocks[n - 1].succs then [blocks[n - 1].start] else [])
  }

  /** One of the first `n` blocks starts at `p` and leads to `s`. */
  ghost predicate EdgeAmong(blocks: seq<Block>, n: nat, p: int, s: int)
    requires n <= |blocks|
  {
    exists i :: 0 <= i < n && blocks[i].start == p && s in blocks[i].succs
  }

  lemma EdgeAmongStep(blocks: seq<Block>, n: nat, p: int, s: int)
    requires 0 < n <= |blocks|
    ensures EdgeAmong(blocks, n, p, s)
            <==> EdgeAmong(blocks, n - 1, p, s) || (blocks[n - 1].start == p && s in blocks[n - 1].succs)
  {
  }

  lemma AppendOne(list: seq<int>, x: int, p: int)
    ensures p in list + [x] <==> p in list || p == x
    ensures multiset(list + [x])[p] == multiset(list)[p] + if x == p then 1 else 0
  {
  }

  /** Predecessor lists are the inverse of successor lists, each edge once. */
  lemma {:induction false} PredsAreInverse(blocks: seq<Block>, n: nat, s: int, p: int)
    requires n <= |blocks| && forall i, j :: 0 <= i < j < |blocks| ==> blocks[i].start != blocks[j].start
    ensures p in PredsUpTo(blocks, n, s) <==> EdgeAmong(blocks, n, p, s)
    ensures multiset(PredsUpTo(blocks, n, s))[p] <= 1
  {
    hide EdgeAmong;
    if n == 0 {
      NoEdgeYet(blocks, p, s);
    } else {
      PredsAreInverse(blocks, n - 1, s, p);
      EdgeAmongStep(blocks, n, p, s);
      AppendOne(PredsUpTo(blocks, n - 1, s), blocks[n - 1].start, p);
      if EdgeAmong(blocks, n - 1, p, s) {
        EdgeFromOther(blocks, n - 1, p, s);
      }
    }
  }

  lemma NoEdgeYet(blocks: seq<Block>, p: int, s: int)
    ensures !EdgeAmong(blocks, 0, p, s)
  {
  }

  lemma EdgeFromOther(blocks: seq<Block>, n: nat, p: int, s: int)
    requires n < |blocks| && EdgeAmong(blocks, n, p, s)
    requires forall i, j :: 0 <= i < j < |blocks| ==> blocks[i].start != blocks[j].start
    ensures blocks[n].start != p
  {
  }

  /** The block that starts at `a`, if any. */
  method IndexBlocks(blocks: array<Block>) returns (index: map<int, int>)
    requires forall i, j :: 0 <= i < j < blocks.Length ==> blocks[i].start != blocks[j].start
    ensures forall a :: a in index <==> exists i :: 0 <= i < blocks.Length && blocks[i].start == a
    ensures forall a :: a in index ==> 0 <= index[a] < blocks.Length && blocks[index[a]].start == a
  {
    index := map[];
    var i := 0;
    while i < blocks.Length
      invariant 0 <= i <= blocks.Length
      invariant forall a :: a in index <==> exists j :: 0 <= j < i && blocks[j].start == a
      invariant forall a :: a in index ==> 0 <= index[a] < i && blocks[index[a]].start == a
    {
      index := index[blocks[i].start := i];
      i := i + 1;
    }
  }

  /** build_predecessors: each block registers with its successors, in place. */
  method BuildPredecessors(blocks: array<Block>)
    requires forall i, j :: 0 <= i < j < blocks.Length ==> blocks[i].start != blocks[j].start
    requires forall i :: 0 <= i < blocks.Length ==> StrictlyIncreasing(blocks[i].succs)
    modifies blocks
    ensures forall j :: 0 <= j < blocks.Length ==>
              blocks[j] == old(blocks[j]).(preds := old(blocks[j]).preds + PredsUpTo(old(blocks[..]), blocks.Length,
                old(blocks[j]).start))
  {
    hide PredsUpTo, StrictlyIncreasing;
    ghost var was := blocks[..];
    var index := IndexBlocks(blocks);
    var i := 0;
    NoListsYet(was);
    while i < blocks.Length
      invariant 0 <= i <= blocks.Length
      invariant forall j :: 0 <= j < blocks.Length ==>
              blocks[j] == was[j].(preds := was[j].preds + PredsUpTo(was, i, was[j].start))
    {
      var succs, start := blocks[i].succs, blocks[i].start;
      var k := 0;
      while k < |succs|
        invariant 0 <= k <= |succs|
        invariant forall j :: 0 <= j < blocks.Length ==>
                    blocks[j] == was[j].(preds := was[j].preds + PredsUpTo(was, i, was[j].start)
                                                    + if was[j].start in succs[..k] then [start] else [])
      {
        NextSuccessor(succs, k);
        if succs[k] in index {
          var j := index[succs[k]];
          blocks[j] := blocks[j].(preds := blocks[j].preds + [start]);
        }
        k := k + 1;
      }
      assert succs[..k] == succs;
      forall j | 0 <= j < blocks.Length
        ensures PredsUpTo(was, i + 1, was[j].start)
                == PredsUpTo(was, i, was[j].start) + if was[j].start in succs then [start] else [] {
        OneMorePred(was, i, was[j].start);
      }
      i := i + 1;
    }
  }

  lemma OneMorePred(was: seq<Block>, i: nat, s: int)
    requires i < |was|
    ensures PredsUpTo(was, i + 1, s) == PredsUpTo(was, i, s) + if s in was[i].succs then [was[i].start] else []
  {
  }

  lemma NoListsYet(was: seq<Block>)
    ensures forall j :: 0 <= j < |was| ==> was[j].preds + PredsUpTo(was, 0, was[j].start) == was[j].preds
  {
  }

  lemma NextSuccessor(succs: seq<int>, k: nat)
    requires StrictlyIncreasing(succs) && k < |succs|
    ensures succs[k] !in succs[..k] && forall s :: s in succs[..k + 1] <==> s in succs[..k] || s == succs[k]
  {
    assert succs[..k + 1] == succs[..k] + [succs[k]];
  }

  // ---- analyze ----

  /** Leaders behind the code make no difference to a scan. */
  lemma {:induction false} ScanBehindEnd(code: Code, i: int, next: int)
    requires 0 <= i < |code.insns| && next >= code.End()
    ensures LastIndex(code, i, next) == LastIndex(code, i, code.End())
    ensures TransferIndex(code, i, next) == TransferIndex(code, i, code.End())
    decreases |code.insns| - i
  {
    if !code.insns[i].HasSlot() && i + 1 < |code.insns| {
      ScanBehindEnd(code, i + 1, next);
    }
  }

  /** The next leader in the list bounds the block as the next leader in the code does. */
  lemma ListedNext(code: Code, leaders: seq<int>, k: nat)
    requires code.Valid() && StrictlyIncreasing(leaders) && k < |leaders| && code.Has(leaders[k])
    requires forall a :: a in leaders <==> IsLeader(code, a)
    ensures var next := if k + 1 < |leaders| then leaders[k + 1] else code.End();
            leaders[k] < next && BlockOf(code, leaders[k], next) == BlockAtLeader(code, leaders[k])
  {
    hide IsLeader, Code.Valid, RawSuccessors, SortUnique, LastIndex, TransferIndex, NextLeader;
    AlignedEnds(code);
    var a := leaders[k];
    var next := if k + 1 < |leaders| then leaders[k + 1] else code.End();
    NextLeaderIsNext(code, a + 4);
    NoneBetween(code, a);
    var n := NextLeader(code, a + 4);
    if n < code.End() {
      assert n in leaders;
      var j :| 0 <= j < |leaders| && leaders[j] == n;
      assert leaders[k + 1] in leaders;
    } else if k + 1 < |leaders| {
      assert leaders[k + 1] in leaders;
      ScanBehindEnd(code, code.IndexOf(a), next);
    }
  }

  /** The blocks of the first `n` leaders that lie in the code. */
  function BlockList(code: Code, leaders: seq<int>, n: nat): seq<Block>
    requires n <= |leaders|
  {
    if n == 0 then []
    else BlockList(code, leaders, n - 1) + (if code.Has(leaders[n - 1]) then [BlockAtLeader(code, leaders[n - 1])]
      else [])
  }

  lemma {:induction false} BlockListMembers(code: Code, leaders: seq<int>, n: nat)
    requires n <= |leaders|
    ensures forall b :: b in BlockList(code, leaders, n) ==>
              code.Has(b.start) && b == BlockAtLeader(code, b.start) && b.start in leaders[..n]
    ensures forall a :: a in leaders[..n] && code.Has(a) ==> BlockAtLeader(code, a) in BlockList(code, leaders, n)
  {
    hide BlockAtLeader;
    if n > 0 {
      BlockListMembers(code, leaders, n - 1);
      assert leaders[..n] == leaders[..n - 1] + [leaders[n - 1]];
      if code.Has(leaders[n - 1]) {
        BlockStartsThere(code, leaders[n - 1]);
      }
    }
  }

  ghost predicate InAddressOrder(list: seq<Block>) {
    forall i, j :: 0 <= i < j < |list| ==> list[i].start < list[j].start
  }

  lemma {:induction false} BlockListIncreasing(code: Code, leaders: seq<int>, n: nat)
    requires n <= |leaders| && StrictlyIncreasing(leaders)
    ensures InAddressOrder(BlockList(code, leaders, n))
  {
    hide BlockAtLeader, StrictlyIncreasing, InAddressOrder;
    NoneOutOfOrder();
    if n > 0 {
      BlockListIncreasing(code, leaders, n - 1);
      BlockListMembers(code, leaders, n - 1);
      var before := BlockList(code, leaders, n - 1);
      forall i | 0 <= i < |before| ensures before[i].start < leaders[n - 1] {
        assert before[i] in before;
        BelowLast(leaders, n - 1, before[i].start);
      }
      if code.Has(leaders[n - 1]) {
        BlockStartsThere(code, leaders[n - 1]);
        AppendBlock(before, BlockAtLeader(code, leaders[n - 1]));
      } else {
        assert BlockList(code, leaders, n) == before;
      }
    }
  }

  lemma NoneOutOfOrder()
    ensures InAddressOrder([])
  {
  }

  lemma AppendBlock(list: seq<Block>, b: Block)
    requires InAddressOrder(list) && forall i :: 0 <= i < |list| ==> list[i].start < b.start
    ensures InAddressOrder(list + [b])
  {
  }

  lemma BelowLast(s: seq<int>, n: nat, x: int)
    requires StrictlyIncreasing(s) && n < |s| && x in s[..n]
    ensures x < s[n]
  {
  }

  lemma BlockStartsThere(code: Code, a: int)
    requires code.Has(a)
    ensures BlockAtLeader(code, a).start == a
  {
  }

  /** One block for each leader in the code, in order. */
  method CollectBlocks(code: Code) returns (list: seq<Block>)
    requires code.Valid()
    ensures forall b :: b in list ==> IsBlockStart(code, b.start) && b == BlockAtLeader(code, b.start)
    ensures forall a :: IsBlockStart(code, a) ==> BlockAtLeader(code, a) in list
    ensures InAddressOrder(list)
  {
    hide IsLeader, Code.Valid, BlockAtLeader, BlockList, StrictlyIncreasing;
    var leaders := FindLeaders(code);
    list := [];
    var k := 0;
    NoBlocksYet(code, leaders);
    while k < |leaders|
      invariant 0 <= k <= |leaders|
      invariant list == BlockList(code, leaders, k)
    {
      var start := leaders[k];
      var next := if k + 1 < |leaders| then leaders[k + 1] else code.End();
      NextInList(code, leaders, k);
      if code.Has(start) {
        ListedNext(code, leaders, k);
        var b := ScanBlock(code, start, next);
        b := b.(succs := SortUnique(RawSuccessors(code, b)));
        list := list + [b];
      }
      k := k + 1;
    }
    assert leaders[..k] == leaders;
    BlockListMembers(code, leaders, k);
    BlockListIncreasing(code, leaders, k);
  }

  /** The blocks of the image, each with the blocks that lead to it as predecessors. */
  method Analyze(code: Code) returns (blocks: array<Block>)
    requires code.Valid()
    ensures fresh(blocks)
    ensures forall a :: IsBlockStart(code, a) ==> exists i :: 0 <= i < blocks.Length && blocks[i].start == a
    ensures forall i, j :: 0 <= i < j < blocks.Length ==> blocks[i].start < blocks[j].start
    ensures forall i :: 0 <= i < blocks.Length ==>
              IsBlockStart(code, blocks[i].start) && blocks[i].(preds := []) == BlockAtLeader(code, blocks[i].start)
    ensures forall i, j :: 0 <= i < blocks.Length && 0 <= j < blocks.Length ==>
              (blocks[j].start in blocks[i].preds <==> blocks[i].start in blocks[j].succs)
  {
    hide Code.Valid, BlockAtLeader, PredsUpTo, IsLeader, StrictlyIncreasing;
    var list := CollectBlocks(code);
    blocks := new Block[|list|](i requires 0 <= i < |list| => list[i]);
    assert blocks[..] == list;
    ListReady(code, list);
    BuildPredecessors(blocks);
    forall i, j | 0 <= i < blocks.Length && 0 <= j < blocks.Length
      ensures blocks[j].start in blocks[i].preds <==> blocks[i].start in blocks[j].succs
    {
      PredsAreInverse(list, |list|, list[i].start, list[j].start);
    }
    forall i | 0 <= i < blocks.Length
      ensures IsBlockStart(code, blocks[i].start) && blocks[i].(preds := []) == BlockAtLeader(code, blocks[i].start)
    {
      assert list[i] in list;
    }
    forall a | IsBlockStart(code, a) ensures exists i :: 0 <= i < blocks.Length && blocks[i].start == a {
      ListHolds(code, list, a);
    }
  }

  lemma ListHolds(code: Code, list: seq<Block>, a: int)
    requires IsBlockStart(code, a) && BlockAtLeader(code, a) in list
    ensures exists i :: 0 <= i < |list| && list[i].start == a
  {
    hide BlockAtLeader;
    BlockStartsThere(code, a);
  }

  lemma NoBlocksYet(code: Code, leaders: seq<int>)
    ensures BlockList(code, leaders, 0) == []
  {
  }

  lemma NextInList(code: Code, leaders: seq<int>, k: nat)
    requires k < |leaders|
    ensures BlockList(code, leaders, k + 1)
            == BlockList(code, leaders, k) + if code.Has(leaders[k]) then [BlockAtLeader(code, leaders[k])] else []
  {
    hide BlockAtLeader;
  }

  lemma ListReady(code: Code, list: seq<Block>)
    requires forall b :: b in list ==> IsBlockStart(code, b.start) && b == BlockAtLeader(code, b.start)
    ensures forall i :: 0 <= i < |list| ==> StrictlyIncreasing(list[i].succs) && list[i].preds == []
  {
    hide StrictlyIncreasing, BlockAtLeader, IsLeader;
    forall i | 0 <= i < |list| ensures StrictlyIncreasing(list[i].succs) && list[i].preds == [] {
      assert list[i] in list;
      BlockIsClean(code, list[i].start);
    }
  }

  lemma BlockIsClean(code: Code, a: int)
    requires code.Has(a)
    ensures StrictlyIncreasing(BlockAtLeader(code, a).succs) && BlockAtLeader(code, a).preds == []
  {
    hide StrictlyIncreasing, RawSuccessors;
  }
}
