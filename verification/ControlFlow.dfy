/** Control-flow graphs of single functions: ControlFlowAnalyzer::analyze_function and
    the instruction classification it rests on. */
module ControlFlow {
  import opened Words

  /** The executable image: bytes at consecutive addresses from `load` on. */
  datatype Image = Image(load: Word, code: seq<Byte>) {
    function End(): int {
      load + |code|
    }

    /** The little-endian word at `a`; none outside the image or when cut off by its end. */
    function ReadWord(a: int): Option<Word> {
      if a < load || a >= End() || a - load + 3 >= |code| then None
      else Some(Join(code[a - load], code[a - load + 1], code[a - load + 2], code[a - load + 3]))
    }
  }

  datatype CfKind = NoTransfer | Branch | Jump | JumpLink | JumpRegister | JumpLinkReg | Return

  datatype ControlFlowInstr = ControlFlowInstr(
    address: int, word: Word, kind: CfKind, target: Word, hasDelaySlot: bool, isLikely: bool)

  predicate IsControlFlow(f: Fields) {
    || (f.op == 0x00 && (f.funct == 0x08 || f.funct == 0x09))
    || f.op == 0x01
    || 0x04 <= f.op <= 0x07
    || 0x14 <= f.op <= 0x17
    || f.op == 0x02
    || f.op == 0x03
  }

  function BranchTarget(pc: int, f: Fields): Word {
    Wrap(pc + 4 + 4 * f.simm)
  }

  function JumpTarget(pc: int, f: Fields): Word {
    Wrap(Wrap(pc + 4) / 0x1000_0000 * 0x1000_0000 + 4 * f.index)
  }

  function AnalyzeInstruction(addr: int, w: Word): ControlFlowInstr {
    var f := FieldsOf(w);
    if f.op == 0x00 && f.funct == 0x08 then
      ControlFlowInstr(addr, w, if f.rs == 31 then Return else JumpRegister, 0, true, false)
    else if f.op == 0x00 && f.funct == 0x09 then
      ControlFlowInstr(addr, w, JumpLinkReg, 0, true, false)
    else if f.op == 0x01 || 0x04 <= f.op <= 0x07 then
      ControlFlowInstr(addr, w, Branch, BranchTarget(addr, f), true, false)
    else if 0x14 <= f.op <= 0x17 then
      ControlFlowInstr(addr, w, Branch, BranchTarget(addr, f), true, true)
    else if f.op == 0x02 then
      ControlFlowInstr(addr, w, Jump, JumpTarget(addr, f), true, false)
    else if f.op == 0x03 then
      ControlFlowInstr(addr, w, JumpLink, JumpTarget(addr, f), true, false)
    else
      ControlFlowInstr(addr, w, NoTransfer, 0, false, false)
  }

  predicate TransferAt(img: Image, a: int) {
    var w := img.ReadWord(a);
    w.Some? && IsControlFlow(FieldsOf(w.value))
  }

  // ---- functions, blocks, graphs ----

  /** A function range [start, end).  When `aliasWalkLo` is nonzero, `start` is an
      interior address of the host that begins there, and the graph covers the host. */
  datatype Function = Function(start: Word, end: Word, aliasWalkLo: Word, aliasEntries: seq<Word>, isData: bool) {
    predicate IsAlias() {
      aliasWalkLo != 0
    }

    function WalkLo(): Word {
      if IsAlias() then aliasWalkLo else start
    }

    predicate InRange(a: int) {
      WalkLo() <= a < end
    }

    /** Nonempty, word-aligned, clear of the top of the address space. */
    predicate Valid() {
      && Aligned(WalkLo()) && Aligned(start) && Aligned(end)
      && InRange(start) && WalkLo() != 0 && end + 8 <= WORD_LIMIT
      && forall e :: e in aliasEntries ==> Aligned(e)
    }
  }

  datatype BasicBlock = BasicBlock(start: int, end: int, exit: ControlFlowInstr, successors: seq<int>) {
    predicate Contains(a: int) {
      start <= a <= end
    }
  }

  datatype Cfg = Cfg(start: int, end: int, blocks: map<int, BasicBlock>, order: seq<int>)

  // ---- specification: leaders and the blocks between them ----

  /** The transfer at `c` makes `a` a block start: its target, or the address after its
      delay slot. */
  predicate LeadsTo(img: Image, c: int, a: int) {
    && TransferAt(img, c)
    && var t := AnalyzeInstruction(c, img.ReadWord(c).value).target;
       (a == t && t != 0) || a == c + 8
  }

  predicate EntryLeader(f: Function, a: int) {
    a == f.WalkLo() || (f.IsAlias() && (a == f.start || a in f.aliasEntries))
  }

  predicate IsLeader(img: Image, f: Function, a: int) {
    && f.InRange(a)
    && (EntryLeader(f, a) || exists c: int | f.WalkLo() <= c < f.end && Aligned(c) :: LeadsTo(img, c, a))
  }

  /** The leaders from `x` on, in address order. */
  function LeadersFrom(img: Image, f: Function, x: int): (r: seq<int>)
    decreases f.end - x
  {
    if x >= f.end then []
    else (if IsLeader(img, f, x) then [x] else []) + LeadersFrom(img, f, x + 4)
  }

  function Leaders(img: Image, f: Function): seq<int> {
    LeadersFrom(img, f, f.WalkLo())
  }

  /** The first leader at or after `x`, or the end of the function. */
  function NextFrom(img: Image, f: Function, x: int): (r: int)
    ensures x <= f.end ==> x <= r
    decreases f.end - x
  {
    if x >= f.end then f.end else if IsLeader(img, f, x) then x else NextFrom(img, f, x + 4)
  }

  function BlockEnd(img: Image, f: Function, a: int): int {
    NextFrom(img, f, a + 4) - 4
  }

  /** The transfer that ends [start, end]: the last but one instruction when that is a
      transfer, else the last one when that is. */
  function ExitOf(img: Image, start: int, end: int): ControlFlowInstr {
    if end > start && TransferAt(img, end - 4) then AnalyzeInstruction(end - 4, img.ReadWord(end - 4).value)
    else if TransferAt(img, end) then AnalyzeInstruction(end, img.ReadWord(end).value)
    else ControlFlowInstr(end, 0, NoTransfer, 0, false, false)
  }

  /** Where control can go after `exit`, by address; register targets are unknown. */
  function NextAddresses(exit: ControlFlowInstr, end: int): seq<int> {
    match exit.kind
    case Branch => (if exit.target != 0 then [exit.target] else []) + [exit.address + 8]
    case Jump => if exit.target != 0 then [exit.target] else []
    case JumpLink => [exit.address + 8]
    case JumpLinkReg => [exit.address + 8]
    case Return => []
    case JumpRegister => []
    case NoTransfer => [end + 4]
  }

  function KeepLeaders(img: Image, f: Function, s: seq<int>): seq<int> {
    if s == [] then []
    else (if IsLeader(img, f, s[0]) then [s[0]] else []) + KeepLeaders(img, f, s[1..])
  }

  function BlockAt(img: Image, f: Function, a: int): BasicBlock {
    var end := BlockEnd(img, f, a);
    var exit := ExitOf(img, a, end);
    BasicBlock(a, end, exit, KeepLeaders(img, f, NextAddresses(exit, end)))
  }

  /** The blocks of the first `n` leaders, by start address. */
  function BlocksUpTo(img: Image, f: Function, order: seq<int>, n: nat): map<int, BasicBlock>
    requires n <= |order|
  {
    if n == 0 then map[] else BlocksUpTo(img, f, order, n - 1)[order[n - 1] := BlockAt(img, f, order[n - 1])]
  }

  function CfgOf(img: Image, f: Function): Cfg {
    var order := Leaders(img, f);
    Cfg(f.WalkLo(), f.end, BlocksUpTo(img, f, order, |order|), order)
  }

  // ---- sorting and deduplicating the boundary vector ----

  predicate StrictlyIncreasing(s: seq<int>) {
    forall i, j :: 0 <= i < j < |s| ==> s[i] < s[j]
  }

  function Insert(s: seq<int>, x: int): (r: seq<int>)
    requires StrictlyIncreasing(s)
    ensures StrictlyIncreasing(r) && forall y :: y in r <==> y == x || y in s
  {
    if s == [] then [x]
    else if x < s[0] then [x] + s
    else if x == s[0] then s
    else
      var rest := Insert(s[1..], x);
      assert forall y :: y in s <==> y == s[0] || y in s[1..];
      assert forall k | 0 <= k < |rest| :: rest[k] in rest && s[0] < rest[k];
      [s[0]] + rest
  }

  /** std::sort followed by std::unique. */
  function SortUnique(s: seq<int>): (r: seq<int>)
    ensures StrictlyIncreasing(r) && forall y :: y in r <==> y in s
  {
    if s == [] then []
    else
      assert forall y :: y in s <==> y == s[0] || y in s[1..];
      Insert(SortUnique(s[1..]), s[0])
  }

  lemma TailMembers(s: seq<int>)
    requires StrictlyIncreasing(s) && s != []
    ensures forall y :: y in s[1..] <==> y in s && y != s[0]
  {
    forall y ensures y in s[1..] <==> y in s && y != s[0] {
      if y in s && y != s[0] {
        var k :| 0 <= k < |s| && s[k] == y;
        assert s[1..][k - 1] == y;
      }
    }
  }

  lemma {:induction false} SameElementsSameSequence(s: seq<int>, t: seq<int>)
    requires StrictlyIncreasing(s) && StrictlyIncreasing(t)
    requires forall y :: y in s <==> y in t
    ensures s == t
  {
    if s != [] { assert s[0] in s; }
    if t != [] { assert t[0] in t; }
    if s != [] && t != [] {
      var i :| 0 <= i < |t| && t[i] == s[0];
      var j :| 0 <= j < |s| && s[j] == t[0];
      TailMembers(s);
      TailMembers(t);
      SameElementsSameSequence(s[1..], t[1..]);
    }
  }

  // ---- the leaders as a sequence ----

  lemma WrapAligned(a: int)
    requires Aligned(a)
    ensures Aligned(Wrap(a))
  {
    assert a == WORD_LIMIT * (a / WORD_LIMIT) + Wrap(a);
  }

  lemma TargetAligned(c: int, w: Word)
    requires Aligned(c)
    ensures Aligned(AnalyzeInstruction(c, w).target)
  {
    hide FieldsOf, Wrap;
    var f := FieldsOf(w);
    WrapAligned(c + 4 + 4 * f.simm);
    WrapAligned(Wrap(c + 4) / 0x1000_0000 * 0x1000_0000 + 4 * f.index);
  }

  lemma LeaderAligned(img: Image, f: Function, a: int)
    requires f.Valid() && IsLeader(img, f, a)
    ensures Aligned(a)
  {
    hide AnalyzeInstruction, IsControlFlow, FieldsOf, Join;
    if !EntryLeader(f, a) {
      var c: int :| f.WalkLo() <= c < f.end && Aligned(c) && LeadsTo(img, c, a);
      TargetAligned(c, img.ReadWord(c).value);
    }
  }

  lemma {:induction false} LeadersFromMembers(img: Image, f: Function, x: int)
    requires f.Valid() && Aligned(x) && f.WalkLo() <= x
    ensures forall a :: a in LeadersFrom(img, f, x) <==> x <= a && IsLeader(img, f, a)
    decreases f.end - x
  {
    hide LeadsTo, EntryLeader;
    if x < f.end {
      LeadersFromMembers(img, f, x + 4);
      forall a | x <= a && IsLeader(img, f, a) ensures a == x || x + 4 <= a {
        LeaderAligned(img, f, a);
      }
    }
  }

  lemma EmptyIncreasing()
    ensures StrictlyIncreasing([])
  {
  }

  lemma Prepend(x: int, s: seq<int>)
    requires StrictlyIncreasing(s) && forall y :: y in s ==> x < y
    ensures StrictlyIncreasing([x] + s)
  {
    forall k | 0 <= k < |s| ensures x < s[k] {
      assert s[k] in s;
    }
  }

  lemma {:induction false} LeadersFromIncreasing(img: Image, f: Function, x: int)
    requires f.Valid() && Aligned(x) && f.WalkLo() <= x
    ensures StrictlyIncreasing(LeadersFrom(img, f, x))
    decreases f.end - x
  {
    hide IsLeader, StrictlyIncreasing;
    if x < f.end {
      LeadersFromIncreasing(img, f, x + 4);
      LeadersFromMembers(img, f, x + 4);
      Prepend(x, LeadersFrom(img, f, x + 4));
      assert [] + LeadersFrom(img, f, x + 4) == LeadersFrom(img, f, x + 4);
    } else {
      EmptyIncreasing();
    }
  }

  /** The sequence from `x` on starts with the next leader and goes on behind it. */
  lemma {:induction false} LeadersUnfold(img: Image, f: Function, x: int)
    requires f.Valid() && Aligned(x) && f.WalkLo() <= x
    ensures var n := NextFrom(img, f, x);
            Aligned(n) || x >= f.end
    ensures var n := NextFrom(img, f, x);
            LeadersFrom(img, f, x) == if n >= f.end then [] else [n] + LeadersFrom(img, f, n + 4)
    decreases f.end - x
  {
    hide IsLeader;
    if x < f.end && !IsLeader(img, f, x) {
      LeadersUnfold(img, f, x + 4);
    }
  }

  lemma {:induction false} LeadersSuffix(img: Image, f: Function, i: nat)
    requires f.Valid() && i < |Leaders(img, f)|
    ensures var s := Leaders(img, f);
            && Aligned(s[i]) && f.WalkLo() <= s[i]
            && s[i..] == LeadersFrom(img, f, s[i])
            && s[i + 1..] == LeadersFrom(img, f, s[i] + 4)
  {
    hide IsLeader, LeadersFrom, NextFrom;
    var s := Leaders(img, f);
    if i == 0 {
      LeadersUnfold(img, f, f.WalkLo());
      FirstLeader(img, f);
    } else {
      LeadersSuffix(img, f, i - 1);
      LeadersUnfold(img, f, s[i - 1] + 4);
      assert s[i..][0] == s[i] && s[i + 1..] == s[i..][1..];
      LeadersFromMembers(img, f, f.WalkLo());
      assert s[i] in s;
      LeaderAligned(img, f, s[i]);
      LeadersUnfold(img, f, s[i]);
      NextAtLeader(img, f, s[i]);
    }
  }

  lemma NextAtLeader(img: Image, f: Function, a: int)
    requires IsLeader(img, f, a)
    ensures NextFrom(img, f, a) == a
  {
    hide EntryLeader, LeadsTo;
  }

  lemma FirstLeader(img: Image, f: Function)
    requires f.Valid()
    ensures IsLeader(img, f, f.WalkLo()) && NextFrom(img, f, f.WalkLo()) == f.WalkLo()
  {
  }

  /** Each block ends where the next leader, or the function's end, begins. */
  lemma BlockEndAt(img: Image, f: Function, i: nat)
    requires f.Valid() && i < |Leaders(img, f)|
    ensures var s := Leaders(img, f);
            BlockEnd(img, f, s[i]) == (if i + 1 < |s| then s[i + 1] else f.end) - 4
  {
    hide IsLeader;
    var s := Leaders(img, f);
    LeadersSuffix(img, f, i);
    LeadersUnfold(img, f, s[i] + 4);
    if i + 1 < |s| {
      assert s[i + 1] == s[i + 1..][0];
    } else {
      NextFromBound(img, f, s[i] + 4);
      LeadersFromMembers(img, f, f.WalkLo());
      LeaderInRange(img, f, s[i]);
    }
  }

  lemma LeaderInRange(img: Image, f: Function, a: int)
    requires f.Valid() && a in Leaders(img, f)
    ensures f.InRange(a) && IsLeader(img, f, a)
  {
    LeadersFromMembers(img, f, f.WalkLo());
  }

  lemma {:induction false} NextFromBound(img: Image, f: Function, x: int)
    requires Aligned(x) && Aligned(f.end) && x <= f.end
    ensures x <= NextFrom(img, f, x) <= f.end && Aligned(NextFrom(img, f, x))
    ensures NextFrom(img, f, x) < f.end ==> IsLeader(img, f, NextFrom(img, f, x))
    ensures forall a :: x <= a < NextFrom(img, f, x) && Aligned(a) ==> !IsLeader(img, f, a)
    decreases f.end - x
  {
    hide IsLeader;
    if x < f.end && !IsLeader(img, f, x) {
      NextFromBound(img, f, x + 4);
    }
  }

  /** The graph's block map: exactly the leaders, each with its block. */
  lemma {:induction false} BlocksUpToAt(img: Image, f: Function, order: seq<int>, n: nat)
    requires n <= |order|
    ensures forall a :: a in BlocksUpTo(img, f, order, n) <==> exists k :: 0 <= k < n && order[k] == a
    ensures forall a :: a in BlocksUpTo(img, f, order, n) ==> BlocksUpTo(img, f, order, n)[a] == BlockAt(img, f, a)
  {
    hide BlockAt;
    if n > 0 {
      BlocksUpToAt(img, f, order, n - 1);
      assert order[n - 1] in BlocksUpTo(img, f, order, n);
    }
  }

  lemma CfgBlocks(img: Image, f: Function)
    requires f.Valid()
    ensures forall a :: a in CfgOf(img, f).blocks <==> IsLeader(img, f, a)
    ensures forall a :: IsLeader(img, f, a) ==> CfgOf(img, f).blocks[a] == BlockAt(img, f, a)
  {
    hide IsLeader, BlockAt, BlocksUpTo;
    var order := Leaders(img, f);
    BlocksUpToAt(img, f, order, |order|);
    LeadersFromMembers(img, f, f.WalkLo());
    forall a | IsLeader(img, f, a) ensures f.WalkLo() <= a {
      LeaderBound(img, f, a);
    }
  }

  lemma LeaderBound(img: Image, f: Function, a: int)
    requires IsLeader(img, f, a)
    ensures f.InRange(a)
  {
  }

  // ---- analyze_function ----

  /** The first pass: every block boundary, sorted, without duplicates. */
  method CollectBoundaries(img: Image, f: Function) returns (boundaries: seq<int>)
    requires f.Valid()
    ensures boundaries == Leaders(img, f)
  {
    hide LeadsTo, StrictlyIncreasing;
    var walkLo := f.WalkLo();
    boundaries := [walkLo];
    if f.IsAlias() {
      boundaries := boundaries + [f.start];
      var k := 0;
      while k < |f.aliasEntries|
        invariant 0 <= k <= |f.aliasEntries|
        invariant forall a :: a in boundaries <==>
                    a == walkLo || a == f.start || (a in f.aliasEntries[..k] && walkLo <= a < f.end)
      {
        var e := f.aliasEntries[k];
        if walkLo <= e < f.end {
          boundaries := boundaries + [e];
        }
        k := k + 1;
      }
      assert f.aliasEntries[..k] == f.aliasEntries;
    }
    var addr: int := walkLo;
    while addr < f.end
      invariant walkLo <= addr <= f.end && Aligned(addr)
      invariant forall a :: a in boundaries <==> f.InRange(a) && (EntryLeader(f, a) || LedToBefore(img, f, addr, a))
    {
      boundaries := AddBoundaries(img, f, addr, boundaries);
      addr := addr + 4;
    }
    boundaries := SortUnique(boundaries);
    LeadersFromMembers(img, f, walkLo);
    LeadersFromIncreasing(img, f, walkLo);
    SameElementsSameSequence(boundaries, Leaders(img, f));
  }

  /** Some transfer below `bound` leads to `a`. */
  predicate LedToBefore(img: Image, f: Function, bound: int, a: int) {
    exists c: int | f.WalkLo() <= c < bound && Aligned(c) :: LeadsTo(img, c, a)
  }

  /** The boundaries one instruction adds: its target, and the address behind its delay slot. */
  method AddBoundaries(img: Image, f: Function, addr: int, boundaries: seq<int>) returns (r: seq<int>)
    ensures forall a :: a in r <==> a in boundaries || (f.InRange(a) && LeadsTo(img, addr, a))
  {
    hide FieldsOf;
    r := boundaries;
    var w := img.ReadWord(addr);
    if w.Some? && IsControlFlow(FieldsOf(w.value)) {
      var cf := AnalyzeInstruction(addr, w.value);
      if cf.target != 0 && f.InRange(cf.target) {
        r := r + [cf.target];
      }
      if f.InRange(addr + 8) {
        r := r + [addr + 8];
      }
    }
  }

  /** analyze_function: the second pass turns the boundaries into blocks. */
  method AnalyzeFunction(img: Image, f: Function) returns (cfg: Cfg)
    requires f.Valid()
    ensures cfg == CfgOf(img, f)
  {
    hide IsLeader, BlockEnd, ExitOf, KeepLeaders, NextAddresses, EntryLeader, StrictlyIncreasing;
    var boundaries := CollectBoundaries(img, f);
    LeadersFromMembers(img, f, f.WalkLo());
    var blocks: map<int, BasicBlock> := map[];
    var i := 0;
    while i < |boundaries|
      invariant 0 <= i <= |boundaries|
      invariant blocks == BlocksUpTo(img, f, boundaries, i)
    {
      var start := boundaries[i];
      var end := if i + 1 < |boundaries| then boundaries[i + 1] - 4 else f.end - 4;
      BlockEndAt(img, f, i);
      var exit := ExitOf(img, start, end);
      var successors := LinkSuccessors(img, f, boundaries, exit, end);
      blocks := blocks[start := BasicBlock(start, end, exit, successors)];
      i := i + 1;
    }
    cfg := Cfg(f.WalkLo(), f.end, blocks, boundaries);
  }

  /** The successor list of a block: next addresses that are block starts. */
  method LinkSuccessors(img: Image, f: Function, boundaries: seq<int>, exit: ControlFlowInstr, end: int)
    returns (r: seq<int>)
    requires forall a :: f.WalkLo() <= a ==> (a in boundaries <==> IsLeader(img, f, a))
    ensures r == KeepLeaders(img, f, NextAddresses(exit, end))
  {
    r := [];
    if exit.kind == Branch {
      if exit.target != 0 && f.InRange(exit.target) && exit.target in boundaries {
        r := r + [exit.target];
      }
      if f.InRange(exit.address + 8) && exit.address + 8 in boundaries {
        r := r + [exit.address + 8];
      }
      KeepTwo(img, f, exit.target, exit.address + 8);
    } else if exit.kind == Jump {
      if exit.target != 0 && f.InRange(exit.target) && exit.target in boundaries {
        r := r + [exit.target];
      }
    } else if exit.kind == JumpLink || exit.kind == JumpLinkReg {
      if f.InRange(exit.address + 8) && exit.address + 8 in boundaries {
        r := r + [exit.address + 8];
      }
    } else if exit.kind != Return && exit.kind != JumpRegister {
      if f.InRange(end + 4) && end + 4 in boundaries {
        r := r + [end + 4];
      }
    }
  }

  lemma KeepTwo(img: Image, f: Function, a: int, b: int)
    ensures KeepLeaders(img, f, [a, b])
            == (if IsLeader(img, f, a) then [a] else []) + (if IsLeader(img, f, b) then [b] else [])
    ensures KeepLeaders(img, f, [b]) == if IsLeader(img, f, b) then [b] else []
  {
    hide IsLeader;
    assert [b][1..] == [];
    assert KeepLeaders(img, f, [b]) == if IsLeader(img, f, b) then [b] else [];
    assert [a, b][1..] == [b];
  }

  // ---- shape of the graph ----

  lemma AlignedNeighbours(a: int)
    requires Aligned(a)
    ensures Aligned(a + 4) && Aligned(a - 4)
  {
  }

  lemma AlignedApart(a: int, b: int)
    requires Aligned(a) && Aligned(b) && a < b
    ensures a + 4 <= b
  {
  }

  /** A block is a nonempty aligned stretch inside the function, up to the next leader or
      the end, with no leader inside. */
  lemma BlockShape(img: Image, f: Function, a: int)
    requires f.Valid() && IsLeader(img, f, a)
    ensures var e := BlockEnd(img, f, a);
            && Aligned(a) && Aligned(e) && f.WalkLo() <= a <= e && e + 4 <= f.end
            && (e + 4 == f.end || IsLeader(img, f, e + 4))
            && forall x :: a < x <= e && Aligned(x) ==> !IsLeader(img, f, x)
  {
    hide IsLeader, Aligned, NextFrom;
    LeaderBound(img, f, a);
    LeaderAligned(img, f, a);
    AlignedNeighbours(a);
    AlignedApart(a, f.end);
    NextFromBound(img, f, a + 4);
    var e := BlockEnd(img, f, a);
    AlignedNeighbours(e + 4);
    forall x | a < x <= e && Aligned(x) ensures !IsLeader(img, f, x) {
      AlignedApart(a, x);
    }
  }

  /** The last leader at or before `x`: the start of the block that holds it. */
  function BlockStart(img: Image, f: Function, x: int): int
    decreases x - f.WalkLo()
  {
    if x <= f.WalkLo() || IsLeader(img, f, x) then x else BlockStart(img, f, x - 4)
  }

  lemma {:induction false} BlockStartIsLast(img: Image, f: Function, x: int)
    requires f.Valid() && f.InRange(x) && Aligned(x)
    ensures var a := BlockStart(img, f, x);
            && f.WalkLo() <= a <= x && IsLeader(img, f, a)
            && forall y :: a < y <= x && Aligned(y) ==> !IsLeader(img, f, y)
    decreases x - f.WalkLo()
  {
    hide IsLeader;
    FirstLeader(img, f);
    if x != f.WalkLo() && !IsLeader(img, f, x) {
      BlockStartIsLast(img, f, x - 4);
    }
  }

  /** The blocks tile [walkLo, end): each address lies in exactly one of them. */
  lemma BlocksTile(img: Image, f: Function, x: int, a: int)
    requires f.Valid() && f.InRange(x) && Aligned(x)
    ensures IsLeader(img, f, a) && a <= x <= BlockEnd(img, f, a) <==> a == BlockStart(img, f, x)
  {
    hide IsLeader, BlockEnd, BlockStart;
    var b := BlockStart(img, f, x);
    BlockStartIsLast(img, f, x);
    BlockShape(img, f, b);
    if IsLeader(img, f, a) && a <= x <= BlockEnd(img, f, a) {
      BlockShape(img, f, a);
    }
  }

  /** A transfer makes what follows its delay slot a leader, so it sits at its block's
      last or last but one instruction. */
  lemma TransferAtBlockEnd(img: Image, f: Function, a: int, c: int)
    requires f.Valid() && IsLeader(img, f, a)
    requires a <= c <= BlockEnd(img, f, a) && Aligned(c) && TransferAt(img, c)
    ensures c == BlockEnd(img, f, a) || c == BlockEnd(img, f, a) - 4
  {
    hide IsLeader, TransferAt, BlockEnd;
    LeaderBound(img, f, a);
    if c + 8 < f.end {
      AfterDelayIsLeader(img, f, c);
    }
    BlockShape(img, f, a);
  }

  lemma AfterDelayIsLeader(img: Image, f: Function, c: int)
    requires f.WalkLo() <= c && c + 8 < f.end && Aligned(c) && TransferAt(img, c)
    ensures IsLeader(img, f, c + 8)
  {
    hide TransferAt, EntryLeader;
    assert LeadsTo(img, c, c + 8);
  }

  /** With no transfer in a delay slot, a block's exit is the transfer it contains. */
  lemma ExitIsTheTransfer(img: Image, f: Function, a: int, c: int)
    requires f.Valid() && IsLeader(img, f, a)
    requires a <= c <= BlockEnd(img, f, a) && Aligned(c) && TransferAt(img, c)
    requires c == a || !TransferAt(img, c - 4)
    ensures BlockAt(img, f, a).exit == AnalyzeInstruction(c, img.ReadWord(c).value)
  {
    hide IsLeader, AnalyzeInstruction;
    TransferAtBlockEnd(img, f, a, c);
    BlockShape(img, f, a);
  }

  /** Conversely an exit is a transfer at one of those two places, or there is none. */
  lemma ExitKind(img: Image, f: Function, a: int)
    requires f.Valid() && IsLeader(img, f, a)
    ensures var b := BlockAt(img, f, a);
            && (b.exit.kind == NoTransfer ==> b.exit.address == b.end && !TransferAt(img, b.end))
            && (b.exit.kind != NoTransfer ==>
                 && a <= b.exit.address && (b.exit.address == b.end || b.exit.address == b.end - 4)
                 && TransferAt(img, b.exit.address)
                 && b.exit == AnalyzeInstruction(b.exit.address, img.ReadWord(b.exit.address).value))
  {
    hide IsLeader, FieldsOf, IsControlFlow, AnalyzeInstruction, KeepLeaders, NextAddresses, Aligned, BlockEnd;
    BlockShape(img, f, a);
    var e := BlockEnd(img, f, a);
    if e > a && TransferAt(img, e - 4) {
      AlignedApart(a, e);
      TransferHasKind(e - 4, img.ReadWord(e - 4).value);
    } else if TransferAt(img, e) {
      TransferHasKind(e, img.ReadWord(e).value);
    }
  }

  lemma TransferHasKind(c: int, w: Word)
    ensures IsControlFlow(FieldsOf(w)) <==> AnalyzeInstruction(c, w).kind != NoTransfer
    ensures AnalyzeInstruction(c, w).address == c && AnalyzeInstruction(c, w).word == w
    ensures AnalyzeInstruction(c, w).hasDelaySlot <==> IsControlFlow(FieldsOf(w))
  {
    hide FieldsOf, BranchTarget, JumpTarget;
  }

  lemma {:induction false} KeepLeadersMembers(img: Image, f: Function, s: seq<int>)
    ensures forall x :: x in KeepLeaders(img, f, s) <==> x in s && IsLeader(img, f, x)
  {
    hide IsLeader;
    if s != [] {
      KeepLeadersMembers(img, f, s[1..]);
      assert forall x :: x in s <==> x == s[0] || x in s[1..];
    }
  }

  /** A block's successors are exactly the next addresses of its exit that lie in the
      function, and each of them is a block. */
  lemma SuccessorsExact(img: Image, f: Function, a: int, s: int)
    requires f.Valid() && IsLeader(img, f, a)
    ensures var b := BlockAt(img, f, a);
            && (s in b.successors <==> s in NextAddresses(b.exit, b.end) && f.InRange(s))
            && (s in b.successors ==> IsLeader(img, f, s))
  {
    hide IsLeader, ExitOf, AnalyzeInstruction, BlockEnd;
    var b := BlockAt(img, f, a);
    KeepLeadersMembers(img, f, NextAddresses(b.exit, b.end));
    BlockShape(img, f, a);
    ExitKind(img, f, a);
    if IsLeader(img, f, s) {
      LeaderBound(img, f, s);
    } else if s in NextAddresses(b.exit, b.end) && f.InRange(s) {
      NextIsLeader(img, f, a, s);
    }
  }

  lemma NextIsLeader(img: Image, f: Function, a: int, s: int)
    requires f.Valid() && IsLeader(img, f, a)
    requires s in NextAddresses(BlockAt(img, f, a).exit, BlockAt(img, f, a).end) && f.InRange(s)
    ensures IsLeader(img, f, s)
  {
    hide ExitOf, AnalyzeInstruction, BlockEnd, EntryLeader, TransferAt, KeepLeaders;
    var b := BlockAt(img, f, a);
    BlockShape(img, f, a);
    ExitKind(img, f, a);
    if b.exit.kind != NoTransfer {
      assert LeadsTo(img, b.exit.address, s);
    }
  }

  // ---- aliases of one host ----

  /** Two aliases of one host that list the same entries, their own among them. */
  ghost predicate Siblings(f: Function, g: Function) {
    && f.IsAlias() && f.aliasWalkLo == g.aliasWalkLo && f.end == g.end
    && f.start in f.aliasEntries && g.start in g.aliasEntries
    && forall e :: e in f.aliasEntries <==> e in g.aliasEntries
  }

  ghost predicate SameLeaders(img: Image, f: Function, g: Function) {
    f.WalkLo() == g.WalkLo() && f.end == g.end && forall a :: IsLeader(img, f, a) <==> IsLeader(img, g, a)
  }

  lemma SiblingsSameLeaders(img: Image, f: Function, g: Function)
    requires Siblings(f, g)
    ensures SameLeaders(img, f, g)
  {
    hide LeadsTo;
    forall a ensures EntryLeader(f, a) <==> EntryLeader(g, a) {
    }
    forall a ensures IsLeader(img, f, a) <==> IsLeader(img, g, a) {
      assert EntryLeader(f, a) <==> EntryLeader(g, a);
    }
  }

  lemma {:induction false} SameLeadersFrom(img: Image, f: Function, g: Function, x: int)
    requires SameLeaders(img, f, g)
    ensures LeadersFrom(img, f, x) == LeadersFrom(img, g, x) && NextFrom(img, f, x) == NextFrom(img, g, x)
    decreases f.end - x
  {
    hide IsLeader;
    if x < f.end {
      SameLeadersFrom(img, f, g, x + 4);
    }
  }

  lemma {:induction false} SameKept(img: Image, f: Function, g: Function, s: seq<int>)
    requires SameLeaders(img, f, g)
    ensures KeepLeaders(img, f, s) == KeepLeaders(img, g, s)
  {
    hide IsLeader;
    if s != [] {
      SameKept(img, f, g, s[1..]);
    }
  }

  lemma SameBlock(img: Image, f: Function, g: Function, a: int)
    requires SameLeaders(img, f, g)
    ensures BlockAt(img, f, a) == BlockAt(img, g, a)
  {
    hide IsLeader, ExitOf, NextAddresses;
    SameLeadersFrom(img, f, g, a + 4);
    var end := BlockEnd(img, f, a);
    SameKept(img, f, g, NextAddresses(ExitOf(img, a, end), end));
  }

  lemma {:induction false} SameBlocksUpTo(img: Image, f: Function, g: Function, order: seq<int>, n: nat)
    requires SameLeaders(img, f, g) && n <= |order|
    ensures BlocksUpTo(img, f, order, n) == BlocksUpTo(img, g, order, n)
  {
    hide BlockAt, SameLeaders;
    if n > 0 {
      SameBlocksUpTo(img, f, g, order, n - 1);
      SameBlock(img, f, g, order[n - 1]);
    }
  }

  /** All aliases of a host get the same graph. */
  lemma SiblingsShareCfg(img: Image, f: Function, g: Function)
    requires Siblings(f, g)
    ensures CfgOf(img, f) == CfgOf(img, g)
  {
    hide Siblings, IsLeader, BlocksUpTo, LeadersFrom;
    SiblingsSameLeaders(img, f, g);
    SameLeadersFrom(img, f, g, f.WalkLo());
    SameBlocksUpTo(img, f, g, Leaders(img, f), |Leaders(img, f)|);
  }
}
