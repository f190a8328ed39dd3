/** The two function walkers: _walk_overlay_function of the overlay compiler, which takes
    pending addresses in order, and walk_function of the instruction inventory, which takes
    the latest first.  Both mark a delay slot visited together with its transfer, without
    following it. */
module Walkers {
  import opened Words
  import opened Addresses
  import opened ControlFlow
  import opened JumpTables
  import opened WordImages

  /** What a walk follows: for each address it can expand, the addresses it then queues, and
      the delay slot it marks. */
  datatype Graph = Graph(next: map<int, seq<int>>, slot: map<int, int>)

  /** Addresses marked, and those of them expanded. */
  datatype Walked = Walked(visited: set<int>, expanded: set<int>)

  function SlotOf(g: Graph, pc: int): set<int> {
    if pc in g.slot then {g.slot[pc]} else {}
  }

  function Expand(g: Graph, w: Walked, pc: int): Walked {
    Walked(w.visited + {pc} + SlotOf(g, pc), w.expanded + {pc})
  }

  /** The walk from a work list on. */
  function Explore(g: Graph, fifo: bool, work: seq<int>, w: Walked): Walked
    decreases g.next.Keys - w.visited, |work|
  {
    if work == [] then w
    else
      var pc := if fifo then work[0] else work[|work| - 1];
      var rest := if fifo then work[1..] else work[..|work| - 1];
      if pc in w.visited || pc !in g.next then Explore(g, fifo, rest, w)
      else Explore(g, fifo, rest + g.next[pc], Expand(g, w, pc))
  }

  const NOTHING := Walked({}, {})

  function Walk(g: Graph, fifo: bool, entry: int): Walked {
    Explore(g, fifo, [entry], NOTHING)
  }

  // ---- reachability ----

  ghost predicate ClosedSet(g: Graph, entry: int, t: set<int>) {
    && (entry in g.next ==> entry in t)
    && forall pc, s :: pc in t && pc in g.next && s in g.next[pc] && s in g.next ==> s in t
  }

  /** What can be reached from the entry: the least closed set. */
  ghost function Reach(g: Graph, entry: int): set<int> {
    set a | a in g.next && forall t: set<int> {:trigger ClosedSet(g, entry, t)} :: ClosedSet(g, entry, t) ==> a in t
  }

  ghost predicate IsSlot(g: Graph, entry: int, a: int) {
    exists pc :: pc in Reach(g, entry) && a in SlotOf(g, pc)
  }

  /** No edge between reachable addresses, and not the entry, lands on a delay slot. */
  ghost predicate NoEdgeOntoSlot(g: Graph, entry: int) {
    forall a :: a in Reach(g, entry) ==> !IsSlot(g, entry, a)
  }

  lemma ReachIsClosed(g: Graph, entry: int)
    ensures ClosedSet(g, entry, Reach(g, entry))
  {
    var r := Reach(g, entry);
    forall pc, s | pc in r && pc in g.next && s in g.next[pc] && s in g.next ensures s in r {
      forall t: set<int> | ClosedSet(g, entry, t) ensures s in t {
        assert pc in t;
      }
    }
  }

  /** What a walk has done at any point: everything queued or marked is reachable or the slot
      of something reachable, and what the expanded addresses lead to is marked or queued. */
  ghost predicate Progress(g: Graph, entry: int, work: seq<int>, w: Walked) {
    && w.expanded <= w.visited && w.expanded <= Reach(g, entry)
    && (forall a :: a in work && a in g.next ==> a in Reach(g, entry))
    && (forall a :: a in w.visited ==> a in w.expanded || exists pc :: pc in w.expanded && a in SlotOf(g, pc))
    && (forall pc, s :: pc in w.expanded && s in SlotOf(g, pc) ==> s in w.visited)
    && (forall pc, s :: pc in w.expanded && pc in g.next && s in g.next[pc] && s in g.next ==>
      s in w.visited || s in work)
    && (entry in g.next ==> entry in w.visited || entry in work)
  }

  lemma ProgressSkip(g: Graph, entry: int, work: seq<int>, w: Walked, pc: int, rest: seq<int>)
    requires Progress(g, entry, work, w) && (forall a :: a in work <==> a == pc || a in rest)
    requires pc in w.visited || pc !in g.next
    ensures Progress(g, entry, rest, w)
  {
    hide Reach, SlotOf;
  }

  lemma ProgressExpand(g: Graph, entry: int, work: seq<int>, w: Walked, pc: int, rest: seq<int>)
    requires Progress(g, entry, work, w) && (forall a :: a in work <==> a == pc || a in rest)
    requires pc !in w.visited && pc in g.next
    ensures Progress(g, entry, rest + g.next[pc], Expand(g, w, pc))
  {
    hide Reach, SlotOf;
    ReachIsClosed(g, entry);
    var w' := Expand(g, w, pc);
    assert pc in Reach(g, entry);
    forall a | a in w'.visited ensures a in w'.expanded || exists p :: p in w'.expanded && a in SlotOf(g, p) {
      if a in w.visited && a !in w.expanded {
        var p :| p in w.expanded && a in SlotOf(g, p);
        assert p in w'.expanded;
      }
    }
  }

  lemma {:induction false} ExploreProgress(g: Graph, fifo: bool, entry: int, work: seq<int>, w: Walked)
    requires Progress(g, entry, work, w)
    ensures Progress(g, entry, [], Explore(g, fifo, work, w))
    decreases g.next.Keys - w.visited, |work|
  {
    hide Progress;
    if work != [] {
      var pc := if fifo then work[0] else work[|work| - 1];
      var rest := if fifo then work[1..] else work[..|work| - 1];
      assert work == if fifo then [pc] + rest else rest + [pc];
      assert forall a :: a in work <==> a == pc || a in rest;
      if pc in w.visited || pc !in g.next {
        ProgressSkip(g, entry, work, w, pc, rest);
        ExploreProgress(g, fifo, entry, rest, w);
      } else {
        ProgressExpand(g, entry, work, w, pc, rest);
        ExploreProgress(g, fifo, entry, rest + g.next[pc], Expand(g, w, pc));
      }
    }
  }

  lemma WalkProgress(g: Graph, fifo: bool, entry: int)
    ensures Progress(g, entry, [], Walk(g, fifo, entry))
  {
    hide Progress;
    assert Progress(g, entry, [entry], NOTHING) by {
      StartProgress(g, entry);
    }
    ExploreProgress(g, fifo, entry, [entry], NOTHING);
  }

  lemma StartProgress(g: Graph, entry: int)
    ensures Progress(g, entry, [entry], NOTHING)
  {
    ReachIsClosed(g, entry);
  }

  /** A walk marks only what is reachable and the delay slots of that. */
  lemma WalkIsSound(g: Graph, fifo: bool, entry: int, a: int)
    requires a in Walk(g, fifo, entry).visited
    ensures a in Reach(g, entry) || IsSlot(g, entry, a)
    ensures a in Walk(g, fifo, entry).expanded ==> a in Reach(g, entry)
  {
    hide Reach, Explore;
    WalkProgress(g, fifo, entry);
  }

  /** With no edge onto a delay slot it marks all of that, whatever the order. */
  lemma WalkIsComplete(g: Graph, fifo: bool, entry: int)
    requires NoEdgeOntoSlot(g, entry)
    ensures Walk(g, fifo, entry).expanded == Reach(g, entry)
    ensures forall a :: a in Walk(g, fifo, entry).visited <==> a in Reach(g, entry) || IsSlot(g, entry, a)
  {
    hide Explore, SlotOf;
    WalkProgress(g, fifo, entry);
    var w := Walk(g, fifo, entry);
    ReachIsClosed(g, entry);
    forall a | a in w.visited && a !in w.expanded ensures IsSlot(g, entry, a) {
      var pc :| pc in w.expanded && a in SlotOf(g, pc);
    }
    assert ClosedSet(g, entry, w.expanded);
  }

  // ---- the overlay compiler's walker ----

  /** The region a walk may stay in: the overlay's bytes, the function's range, word addresses. */
  datatype Window = Window(img: Image, size: int, entry: int, cap: int) {
    predicate InRegion(a: int) {
      img.load <= a < img.load + size
    }

    predicate InFunction(a: int) {
      InRegion(a) && entry <= a < cap && Aligned(a)
    }
  }

  datatype Kind = Normal | CondBranch | JumpTo | Call | CallReg | JumpTable | JrRa

  function OverlayKind(f: Fields): Kind {
    if f.op == 0 && f.funct == 0x08 then (if f.rs == 31 then JrRa else JumpTable)
    else if f.op == 0 && f.funct == 0x09 then CallReg
    else if f.op == 0x02 then JumpTo
    else if f.op == 0x03 then Call
    else if f.op == 0x01 || 0x04 <= f.op <= 0x07 || 0x14 <= f.op <= 0x17 then CondBranch
    else Normal
  }

  /** Branch targets are not reduced modulo 2^32; no address beyond is in a function. */
  function WideBranchTarget(pc: int, f: Fields): int {
    pc + 4 + 4 * f.simm
  }

  function WideJumpTarget(pc: int, f: Fields): int {
    (pc + 4) % WORD_LIMIT / 0x1000_0000 * 0x1000_0000 + 4 * f.index
  }

  function TableTargetsFrom(v: Window, base: int, count: int, i: int): set<int>
    decreases count - i
  {
    if i >= count then {}
    else
      var t := v.img.ReadWord(base + 4 * i);
      (if t.Some? && v.InFunction(t.value) then {t.value as int} else {}) + TableTargetsFrom(v, base, count, i + 1)
  }

  /** _find_jump_table_targets. */
  function ToolTargets(v: Window, pc: int, r: Reg): set<int> {
    var t := ToolBase(ToolScanFrom(v.img, pc, r, v.entry, 1, TOOL_START));
    if t == None then {} else TableTargetsFrom(v, t.value.0, t.value.1, 0)
  }

  function IfIn(v: Window, a: int): seq<int> {
    if v.InFunction(a) then [a] else []
  }

  /** The addresses queued at one instruction. */
  function OverlayEdges(v: Window, pc: int, f: Fields): seq<int> {
    match OverlayKind(f)
    case Normal => IfIn(v, pc + 4)
    case CondBranch => IfIn(v, pc + 8) + IfIn(v, WideBranchTarget(pc, f))
    case JumpTo => IfIn(v, WideJumpTarget(pc, f))
    case Call => IfIn(v, pc + 8)
    case CallReg => IfIn(v, pc + 8)
    case JumpTable => Ascending(ToolTargets(v, pc, f.rs), v.entry, v.cap)
    case JrRa => []
  }

  function OverlayGraph(v: Window): Graph {
    Graph(map pc: int | v.img.load <= pc < v.img.load + v.size && v.InFunction(pc) && v.img.ReadWord(pc).Some? ::
            OverlayEdges(v, pc, FieldsOf(v.img.ReadWord(pc).value)),
          map pc: int | v.img.load <= pc < v.img.load + v.size && v.InFunction(pc) && v.img.ReadWord(pc).Some?
                        && OverlayKind(FieldsOf(v.img.ReadWord(pc).value)) != Normal && v.InFunction(pc + 4) :: pc + 4)
  }

  function OverlayWalk(v: Window): Walked {
    Walk(OverlayGraph(v), true, v.entry)
  }

  /** What the walk notes at an expanded instruction: a direct call with boundary evidence,
      the addresses a transfer leads to, and the targets of a jump table. */
  function DirectCall(v: Window, pc: int): Option<int> {
    var w := v.img.ReadWord(pc);
    if w == None || OverlayKind(FieldsOf(w.value)) != Call then None
    else
      var t := WideJumpTarget(pc, FieldsOf(w.value));
      if v.InRegion(t) && Aligned(t) && Callable(v.img, t) then Some(t) else None
  }

  function TransferMarks(v: Window, pc: int): set<int> {
    var w := v.img.ReadWord(pc);
    if w == None || OverlayKind(FieldsOf(w.value)) == Normal then {}
      else Elements(OverlayEdges(v, pc, FieldsOf(w.value)))
  }

  function TableMarks(v: Window, pc: int): set<int> {
    var w := v.img.ReadWord(pc);
    if w == None || OverlayKind(FieldsOf(w.value)) != JumpTable then {} else ToolTargets(v, pc, FieldsOf(w.value).rs)
  }

  function DirectCalls(v: Window, expanded: set<int>): set<int> {
    set pc | pc in expanded && DirectCall(v, pc).Some? :: DirectCall(v, pc).value
  }

  function BranchTargets(v: Window, expanded: set<int>): set<int> {
    set pc, a | pc in expanded && a in TransferMarks(v, pc) :: a
  }

  function JumpTableTargets(v: Window, expanded: set<int>): set<int> {
    set pc, a | pc in expanded && a in TableMarks(v, pc) :: a
  }

  // ---- boundary evidence ----

  predicate IsValidWord(w: Option<Word>) {
    && w.Some? && w.value != 0xFFFF_FFFF && w.value != 0xFFFF_FFFD
    && var f := FieldsOf(w.value);
       if f.op == 0x00 then
         f.funct in {0x00, 0x02, 0x03, 0x04, 0x06, 0x07, 0x08, 0x09, 0x0C, 0x0D, 0x10, 0x11, 0x12, 0x13, 0x18, 0x19,
           0x1A, 0x1B,
                     0x20, 0x21, 0x22, 0x23, 0x24, 0x25, 0x26, 0x27, 0x2A, 0x2B}
       else if f.op == 0x01 then f.rt in {0x00, 0x01, 0x10, 0x11}
       else
         f.op in {0x02, 0x03, 0x04, 0x05, 0x06, 0x07, 0x08, 0x09, 0x0A, 0x0B, 0x0C, 0x0D, 0x0E, 0x0F, 0x10, 0x12,
                  0x20, 0x21, 0x22, 0x23, 0x24, 0x25, 0x26, 0x28, 0x29, 0x2A, 0x2B, 0x2E, 0x30, 0x32, 0x38, 0x3A}
  }

  predicate IsStackAdjust(w: Word) {
    var f := FieldsOf(w);
    f.op == 0x09 && f.rs == 29 && f.rt == 29 && f.imm >= 0x8000
  }

  predicate IsTransferWord(w: Option<Word>) {
    w.Some? && IsControlFlow(FieldsOf(w.value))
  }

  /** _callable_legacy_seed: the start of the region, code behind a return, or a stack
      adjustment that is no delay slot. */
  predicate Callable(img: Image, a: int) {
    var w := img.ReadWord(a);
    && IsValidWord(w)
    && (|| a == img.load
        || img.ReadWord(a - 8) == Some(0x03E0_0008)
        || (IsStackAdjust(w.value) && !IsTransferWord(img.ReadWord(a - 4))))
  }

  // ---- the overlay walk as a loop ----

  lemma {:induction false} TableTargetsInFunction(v: Window, base: int, count: int, i: int)
    ensures forall a :: a in TableTargetsFrom(v, base, count, i) ==> v.InFunction(a)
    decreases count - i
  {
    if i < count {
      TableTargetsInFunction(v, base, count, i + 1);
    }
  }

  lemma ToolTargetsInFunction(v: Window, pc: int, r: Reg)
    ensures forall a :: a in ToolTargets(v, pc, r) ==> v.InFunction(a)
  {
    hide ToolScanFrom, TableTargetsFrom;
    var t := ToolBase(ToolScanFrom(v.img, pc, r, v.entry, 1, TOOL_START));
    if t.Some? {
      TableTargetsInFunction(v, t.value.0, t.value.1, 0);
    }
  }

  /** _find_jump_table_targets, its second loop. */
  method CollectTableTargets(v: Window, base: int, count: int) returns (targets: set<int>)
    ensures targets == TableTargetsFrom(v, base, count, 0)
  {
    targets := {};
    var i := 0;
    while i < count
      invariant 0 <= i && (count >= 0 ==> i <= count)
      invariant targets + TableTargetsFrom(v, base, count, i) == TableTargetsFrom(v, base, count, 0)
    {
      var t := v.img.ReadWord(base + 4 * i);
      if t.Some? && v.InFunction(t.value) {
        targets := targets + {t.value};
      }
      i := i + 1;
    }
  }

  method FindJumpTableTargets(v: Window, pc: int, r: Reg) returns (targets: set<int>)
    ensures targets == ToolTargets(v, pc, r)
  {
    hide ToolScanFrom, TableTargetsFrom;
    var t := ToolBase(ToolScanFrom(v.img, pc, r, v.entry, 1, TOOL_START));
    targets := {};
    if t.Some? {
      targets := CollectTableTargets(v, t.value.0, t.value.1);
    }
  }

  /** Everything noted so far, from the instructions expanded so far. */
  ghost predicate Noted(v: Window, expanded: set<int>, calls: set<int>, branches: set<int>, tables: set<int>) {
    calls == DirectCalls(v, expanded) && branches == BranchTargets(v, expanded)
      && tables == JumpTableTargets(v, expanded)
  }

  lemma OneMoreCall(v: Window, expanded: set<int>, pc: int)
    ensures DirectCalls(v, expanded + {pc})
            == DirectCalls(v, expanded) + if DirectCall(v, pc).Some? then {DirectCall(v, pc).value} else {}
  {
    hide DirectCall;
    forall a | a in DirectCalls(v, expanded + {pc})
      ensures a in DirectCalls(v, expanded) + if DirectCall(v, pc).Some? then {DirectCall(v, pc).value} else {}
    {
      var p :| p in expanded + {pc} && DirectCall(v, p).Some? && DirectCall(v, p).value == a;
      if p != pc {
        assert p in expanded;
      }
    }
    forall p | p in expanded && DirectCall(v, p).Some?
      ensures DirectCall(v, p).value in DirectCalls(v, expanded + {pc})
    {
      assert p in expanded + {pc};
    }
    assert pc in expanded + {pc};
  }

  lemma OneMoreMark(v: Window, expanded: set<int>, pc: int)
    ensures BranchTargets(v, expanded + {pc}) == BranchTargets(v, expanded) + TransferMarks(v, pc)
    ensures JumpTableTargets(v, expanded + {pc}) == JumpTableTargets(v, expanded) + TableMarks(v, pc)
  {
    hide TransferMarks, TableMarks;
    forall a
      ensures a in BranchTargets(v, expanded + {pc}) <==> a in BranchTargets(v, expanded) + TransferMarks(v, pc)
    {
      if a in BranchTargets(v, expanded + {pc}) {
        var p :| p in expanded + {pc} && a in TransferMarks(v, p);
      }
      if a in BranchTargets(v, expanded) {
        var p :| p in expanded && a in TransferMarks(v, p);
        assert p in expanded + {pc};
      }
      assert pc in expanded + {pc};
    }
    forall a
      ensures a in JumpTableTargets(v, expanded + {pc}) <==> a in JumpTableTargets(v, expanded) + TableMarks(v, pc)
    {
      if a in JumpTableTargets(v, expanded + {pc}) {
        var p :| p in expanded + {pc} && a in TableMarks(v, p);
      }
      if a in JumpTableTargets(v, expanded) {
        var p :| p in expanded && a in TableMarks(v, p);
        assert p in expanded + {pc};
      }
      assert pc in expanded + {pc};
    }
  }

  lemma NotedOne(v: Window, expanded: set<int>, calls: set<int>, branches: set<int>, tables: set<int>, pc: int)
    requires Noted(v, expanded, calls, branches, tables)
    ensures Noted(v, expanded + {pc}, calls + (if DirectCall(v, pc).Some? then {DirectCall(v, pc).value} else {}),
                  branches + TransferMarks(v, pc), tables + TableMarks(v, pc))
  {
    hide DirectCall, TransferMarks, TableMarks, DirectCalls, BranchTargets, JumpTableTargets;
    OneMoreCall(v, expanded, pc);
    OneMoreMark(v, expanded, pc);
  }

  /** Queueing and noting for one expanded instruction. */
  method ExpandOverlay(v: Window, pc: int, w: Word)
    returns (edges: seq<int>, calls: set<int>, branches: set<int>, tables: set<int>)
    requires v.img.ReadWord(pc) == Some(w)
    ensures edges == OverlayEdges(v, pc, FieldsOf(w))
    ensures calls == if DirectCall(v, pc).Some? then {DirectCall(v, pc).value} else {}
    ensures branches == TransferMarks(v, pc) && tables == TableMarks(v, pc)
  {
    hide FieldsOf, ToolTargets, Callable, TableTargetsFrom, IfIn, Elements, Ascending;
    var f := FieldsOf(w);
    edges, calls, branches, tables := [], {}, {}, {};
    match OverlayKind(f) {
      case Normal =>
        edges := IfIn(v, pc + 4);
      case CondBranch =>
        edges := IfIn(v, pc + 8) + IfIn(v, WideBranchTarget(pc, f));
      case JumpTo =>
        edges := IfIn(v, WideJumpTarget(pc, f));
      case Call =>
        edges := IfIn(v, pc + 8);
        var t := WideJumpTarget(pc, f);
        if v.InRegion(t) && Aligned(t) && Callable(v.img, t) {
          calls := {t};
        }
      case CallReg =>
        edges := IfIn(v, pc + 8);
      case JumpTable =>
        tables := FindJumpTableTargets(v, pc, f.rs);
        edges := Ascending(tables, v.entry, v.cap);
      case JrRa =>
    }
    if OverlayKind(f) != Normal {
      branches := Elements(edges);
    }
  }

  /** What the graph says at `pc`. */
  lemma OverlayGraphAt(v: Window, pc: int)
    ensures var g := OverlayGraph(v);
            var w := v.img.ReadWord(pc);
            && (pc in g.next <==> v.InFunction(pc) && w.Some?)
            && (pc in g.next ==> g.next[pc] == OverlayEdges(v, pc, FieldsOf(w.value)))
            && (pc in g.next ==>
                 SlotOf(g, pc) == if OverlayKind(FieldsOf(w.value)) != Normal
                   && v.InFunction(pc + 4) then {pc + 4} else {})
  {
    hide OverlayEdges, OverlayKind, FieldsOf;
  }

  /** _walk_overlay_function. */
  method WalkOverlayFunction(v: Window)
    returns (visited: set<int>, calls: set<int>, branches: set<int>, tables: set<int>)
    ensures visited == OverlayWalk(v).visited
    ensures Noted(v, OverlayWalk(v).expanded, calls, branches, tables)
  {
    hide FieldsOf, OverlayEdges, Noted, OverlayKind, DirectCall, TransferMarks, TableMarks, OverlayGraph, SlotOf;
    ghost var g := OverlayGraph(v);
    var work := [v.entry];
    visited, calls, branches, tables := {}, {}, {}, {};
    ghost var expanded: set<int> := {};
    assert Noted(v, expanded, calls, branches, tables) by { NothingNoted(v); }
    while work != []
      invariant Explore(g, true, work, Walked(visited, expanded)) == OverlayWalk(v)
      invariant Noted(v, expanded, calls, branches, tables)
      decreases g.next.Keys - visited, |work|
    {
      var pc := work[0];
      OverlayGraphAt(v, pc);
      work := work[1..];
      var w := v.img.ReadWord(pc);
      if pc !in visited && v.InFunction(pc) && w.Some? {
        ghost var w' := Expand(g, Walked(visited, expanded), pc);
        visited := visited + {pc};
        if OverlayKind(FieldsOf(w.value)) != Normal && v.InFunction(pc + 4) {
          visited := visited + {pc + 4};
        }
        assert visited == w'.visited;
        var edges, moreCalls, moreBranches, moreTables := ExpandOverlay(v, pc, w.value);
        NotedOne(v, expanded, calls, branches, tables, pc);
        work, calls, branches, tables := work + edges, calls + moreCalls, branches + moreBranches, tables + moreTables;
        expanded := expanded + {pc};
        assert pc in g.next.Keys;
      }
    }
  }

  lemma NothingNoted(v: Window)
    ensures Noted(v, {}, {}, {}, {})
  {
  }

  /** The walk stays in the function. */
  lemma OverlayWalkStaysInside(v: Window, a: int)
    requires a in OverlayWalk(v).visited
    ensures v.InFunction(a)
  {
    hide Walk, OverlayEdges, OverlayKind, FieldsOf;
    var g := OverlayGraph(v);
    WalkIsSound(g, true, v.entry, a);
  }

  // ---- the inventory's walker ----

  /** A function's range, and the last byte of the image. */
  datatype Range = Range(img: Image, imageEnd: int, entry: int, cap: int) {
    predicate Holds(a: int) {
      entry <= a < cap && a <= imageEnd
    }

    predicate Targets(a: int) {
      entry <= a < cap
    }
  }

  datatype InventoryKind = Falls | Branches | Jumps | Calls | Leaves

  /** Traps fall through like ordinary instructions. */
  function KindOf(f: Fields): InventoryKind {
    if 0x04 <= f.op <= 0x07 || f.op == 0x01 then Branches
    else if f.op == 0x02 then Jumps
    else if f.op == 0x03 then Calls
    else if f.op == 0x00 && f.funct == 0x08 then Leaves
    else if f.op == 0x00 && f.funct == 0x09 then Calls
    else if (f.op == 0x11 || f.op == 0x12) && f.rs == 0x08 then Branches
    else Falls
  }

  function InventoryEdges(r: Range, pc: int, f: Fields): seq<int> {
    match KindOf(f)
    case Falls => [pc + 4]
    case Branches => [pc + 8] + (if r.Targets(WideBranchTarget(pc, f)) then [WideBranchTarget(pc, f)] else [])
    case Jumps => if r.Targets(WideJumpTarget(pc, f)) then [WideJumpTarget(pc, f)] else []
    case Calls => [pc + 8]
    case Leaves => []
  }

  predicate MarksSlot(r: Range, pc: int, f: Fields) {
    KindOf(f) != Falls && r.Holds(pc + 4) && r.img.ReadWord(pc + 4).Some?
  }

  function InventoryGraph(r: Range): Graph {
    Graph(map pc: int | r.entry <= pc < r.cap && r.Holds(pc) && r.img.ReadWord(pc).Some? ::
            InventoryEdges(r, pc, FieldsOf(r.img.ReadWord(pc).value)),
          map pc: int | r.entry <= pc < r.cap && r.Holds(pc) && r.img.ReadWord(pc).Some?
                        && MarksSlot(r, pc, FieldsOf(r.img.ReadWord(pc).value)) :: pc + 4)
  }

  function InventoryWalk(r: Range): Walked {
    Walk(InventoryGraph(r), false, r.entry)
  }

  lemma InventoryGraphAt(r: Range, pc: int)
    ensures var g := InventoryGraph(r);
            var w := r.img.ReadWord(pc);
            && (pc in g.next <==> r.Holds(pc) && w.Some?)
            && (pc in g.next ==> g.next[pc] == InventoryEdges(r, pc, FieldsOf(w.value)))
            && (pc in g.next ==> SlotOf(g, pc) == if MarksSlot(r, pc, FieldsOf(w.value)) then {pc + 4} else {})
  {
    hide InventoryEdges, MarksSlot, FieldsOf;
  }

  /** walk_function: the addresses walked, in order, and the last byte of the last. */
  method WalkFunction(r: Range) returns (addresses: seq<int>, last: int)
    ensures forall a :: a in addresses <==> a in InventoryWalk(r).visited && r.entry <= a < r.cap
    ensures addresses == [] ==> last == r.entry + 3
    ensures addresses != [] ==> last == addresses[|addresses| - 1] + 3
  {
    hide FieldsOf, InventoryEdges, MarksSlot, InventoryGraph, SlotOf;
    ghost var g := InventoryGraph(r);
    var work := [r.entry];
    var visited: set<int> := {};
    ghost var expanded: set<int> := {};
    while work != []
      invariant Explore(g, false, work, Walked(visited, expanded)) == InventoryWalk(r)
      decreases g.next.Keys - visited, |work|
    {
      var pc := work[|work| - 1];
      InventoryGraphAt(r, pc);
      work := work[..|work| - 1];
      var w := r.img.ReadWord(pc);
      if pc !in visited && r.Holds(pc) && w.Some? {
        ghost var w' := Expand(g, Walked(visited, expanded), pc);
        var f := FieldsOf(w.value);
        visited := visited + {pc};
        if MarksSlot(r, pc, f) {
          visited := visited + {pc + 4};
        }
        assert visited == w'.visited;
        work := work + InventoryEdges(r, pc, f);
        expanded := expanded + {pc};
        assert pc in g.next.Keys;
      }
    }
    addresses := Ascending(visited, r.entry, r.cap);
    AscendingMembers(visited, r.entry, r.cap);
    last := if addresses == [] then r.entry + 3 else addresses[|addresses| - 1] + 3;
  }

  /** Word addresses of the graph lead only to word addresses. */
  lemma AlignedIsClosed(r: Range, t: set<int>)
    requires Aligned(r.entry) && forall x :: x in t <==> x in InventoryGraph(r).next && Aligned(x)
    ensures ClosedSet(InventoryGraph(r), r.entry, t)
  {
    hide InventoryGraph, Aligned;
    var g := InventoryGraph(r);
    forall pc, s | pc in t && s in g.next[pc] && s in g.next ensures s in t {
      InventoryEdgeAligned(r, pc, s);
    }
  }

  lemma InClosedSet(g: Graph, entry: int, t: set<int>, a: int)
    requires ClosedSet(g, entry, t) && a in Reach(g, entry)
    ensures a in t
  {
    hide ClosedSet;
  }

  /** The inventory's walk stays in the range, on word addresses when the entry is one. */
  lemma InventoryWalkStaysInside(r: Range, a: int)
    requires a in InventoryWalk(r).visited && Aligned(r.entry)
    ensures r.Holds(a) && Aligned(a)
  {
    hide Walk, InventoryGraph, ClosedSet, Reach;
    var g := InventoryGraph(r);
    WalkIsSound(g, false, r.entry, a);
    var t := set x | x in g.next && Aligned(x);
    AlignedIsClosed(r, t);
    if IsSlot(g, r.entry, a) {
      var pc :| pc in Reach(g, r.entry) && a in SlotOf(g, pc);
      InClosedSet(g, r.entry, t, pc);
      InventorySlotHolds(r, pc);
    } else {
      InClosedSet(g, r.entry, t, a);
      InventoryGraphAt(r, a);
    }
  }

  lemma InventorySlotHolds(r: Range, pc: int)
    requires pc in InventoryGraph(r).slot
    ensures InventoryGraph(r).slot[pc] == pc + 4 && r.Holds(pc + 4)
  {
    hide FieldsOf, KindOf;
  }

  lemma InventoryEdgeAligned(r: Range, pc: int, s: int)
    requires pc in InventoryGraph(r).next && s in InventoryGraph(r).next[pc] && Aligned(pc)
    ensures Aligned(s)
  {
    hide FieldsOf, WideBranchTarget, WideJumpTarget, InventoryGraph;
    InventoryGraphAt(r, pc);
    WideTargetsAligned(pc, FieldsOf(r.img.ReadWord(pc).value));
  }

  lemma WideTargetsAligned(pc: int, f: Fields)
    requires Aligned(pc)
    ensures Aligned(WideBranchTarget(pc, f)) && Aligned(WideJumpTarget(pc, f))
  {
    var top := (pc + 4) % WORD_LIMIT / 0x1000_0000;
    assert WideJumpTarget(pc, f) == 4 * (0x400_0000 * top + f.index);
    assert WideBranchTarget(pc, f) == 4 * (pc / 4 + 1 + f.simm);
  }

  // ---- edges onto delay slots ----

  /** beq to 0x100C; nop; jr $ra; nop; nop: the branch goes to the delay slot of the return. */
  const LOST_PATH: seq<Word> := [0x1000_0002, 0, 0x03E0_0008, 0, 0]

  function LostPathWindow(): Window {
    Window(Image(0x1000, BytesOf(LOST_PATH)), 20, 0x1000, 0x1014)
  }

  lemma LostPathGraph()
    ensures var g := OverlayGraph(LostPathWindow());
            && 0x1000 in g.next && g.next[0x1000] == [0x1008, 0x100C] && SlotOf(g, 0x1000) == {0x1004}
            && 0x1008 in g.next && g.next[0x1008] == [] && SlotOf(g, 0x1008) == {0x100C}
            && 0x100C in g.next && g.next[0x100C] == [0x1010]
            && 0x1010 in g.next
  {
    hide OverlayGraph, BytesOf, SlotOf, FieldsOf;
    var v := LostPathWindow();
    WordOfImage(0x1000, LOST_PATH, 0);
    WordOfImage(0x1000, LOST_PATH, 2);
    WordOfImage(0x1000, LOST_PATH, 3);
    WordOfImage(0x1000, LOST_PATH, 4);
    ExampleFields();
    LostPathSize();
    OverlayGraphAt(v, 0x1000);
    OverlayGraphAt(v, 0x1008);
    OverlayGraphAt(v, 0x100C);
    OverlayGraphAt(v, 0x1010);
  }

  lemma ExampleFields()
    ensures FieldsOf(0x1000_0002) == Fields(4, 0, 0, 0, 0, 2, 2, 2, 2)
    ensures FieldsOf(0x03E0_0008) == Fields(0, 31, 0, 0, 0, 8, 8, 8, 0x03E0_0008)
    ensures FieldsOf(0) == Fields(0, 0, 0, 0, 0, 0, 0, 0, 0)
  {
    hide FieldsOf;
    BranchFields();
    ReturnFields();
    NopFields();
  }

  lemma BranchFields()
    ensures FieldsOf(0x1000_0002) == Fields(4, 0, 0, 0, 0, 2, 2, 2, 2)
  {
  }

  lemma ReturnFields()
    ensures FieldsOf(0x03E0_0008) == Fields(0, 31, 0, 0, 0, 8, 8, 8, 0x03E0_0008)
  {
  }

  lemma NopFields()
    ensures FieldsOf(0) == Fields(0, 0, 0, 0, 0, 0, 0, 0, 0)
  {
  }

  lemma LostPathSize()
    ensures |BytesOf(LOST_PATH)| == 20
  {
    BytesOfAt(LOST_PATH, 0);
  }

  /** Without the condition a path is lost: the walk marks 0x100C as the return's slot before
      it gets to it as the branch's target, and never reaches 0x1010. */
  lemma EdgeOntoSlotLosesPath()
    ensures var v := LostPathWindow();
            0x1010 in Reach(OverlayGraph(v), v.entry) && 0x1010 !in OverlayWalk(v).visited
              && !NoEdgeOntoSlot(OverlayGraph(v), v.entry)
  {
    hide OverlayGraph, LostPathWindow, Reach, SlotOf;
    LostPathGraph();
    LostPathEntry();
    var g := OverlayGraph(LostPathWindow());
    var w1 := Expand(g, NOTHING, 0x1000);
    var w2 := Expand(g, w1, 0x1008);
    assert Explore(g, true, [0x1000], NOTHING) == Explore(g, true, [] + [0x1008, 0x100C], w1);
    assert [] + [0x1008, 0x100C] == [0x1008, 0x100C] && [0x1008, 0x100C][1..] == [0x100C];
    assert Explore(g, true, [0x1008, 0x100C], w1) == Explore(g, true, [0x100C] + [], w2);
    assert [0x100C] + [] == [0x100C] && [0x100C][1..] == [];
    assert Explore(g, true, [0x100C], w2) == Explore(g, true, [], w2) == w2;
    assert 0x1010 !in w2.visited;
    assert OverlayWalk(LostPathWindow()) == Explore(g, true, [0x1000], NOTHING) == w2;
    ReachIsClosed(g, 0x1000);
    assert 0x1008 in g.next[0x1000] && 0x100C in g.next[0x1000] && 0x1010 in g.next[0x100C];
    assert 0x100C in SlotOf(g, 0x1008);
    assert IsSlot(g, 0x1000, 0x100C);
  }

  lemma LostPathEntry()
    ensures LostPathWindow().entry == 0x1000
  {
  }
}
