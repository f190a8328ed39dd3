/** Whether what the roots call is among the roots still holds at the end, when every walk is
    capped at the next of all roots and not only of those known when it was made. */
module FinalCaps {
  import opened Words
  import opened WordImages
  import opened Addresses
  import opened ControlFlow
  import opened JumpTables
  import opened Walkers
  import opened Seeds

  // ---- a narrower window ----

  predicate Narrower(v: Window, w: Window) {
    v == w.(cap := v.cap) && v.cap <= w.cap
  }

  lemma {:induction false} TableTargetsNarrow(v: Window, w: Window, base: int, count: int, i: int)
    requires Narrower(v, w)
    ensures TableTargetsFrom(v, base, count, i) <= TableTargetsFrom(w, base, count, i)
    decreases count - i
  {
    hide Image.ReadWord;
    if i < count {
      TableTargetsNarrow(v, w, base, count, i + 1);
    }
  }

  lemma ToolTargetsNarrow(v: Window, w: Window, pc: int, r: Reg)
    requires Narrower(v, w)
    ensures ToolTargets(v, pc, r) <= ToolTargets(w, pc, r)
    ensures forall a :: a in ToolTargets(v, pc, r) ==> v.InFunction(a) && w.InFunction(a)
  {
    hide ToolScanFrom, TableTargetsFrom, ToolBase;
    ToolTargetsInFunction(v, pc, r);
    var t := ToolBase(ToolScanFrom(v.img, pc, r, v.entry, 1, TOOL_START));
    if t.Some? {
      TableTargetsNarrow(v, w, t.value.0, t.value.1, 0);
    }
  }

  lemma EdgesNarrow(v: Window, w: Window, pc: int, f: Fields, s: int)
    requires Narrower(v, w) && s in OverlayEdges(v, pc, f)
    ensures s in OverlayEdges(w, pc, f)
  {
    hide ToolTargets, Ascending, WideBranchTarget, WideJumpTarget;
    if OverlayKind(f) == JumpTable {
      ToolTargetsNarrow(v, w, pc, f.rs);
      AscendingMembers(ToolTargets(v, pc, f.rs), v.entry, v.cap);
      AscendingMembers(ToolTargets(w, pc, f.rs), w.entry, w.cap);
    }
  }

  lemma GraphNarrow(v: Window, w: Window, pc: int, s: int)
    requires Narrower(v, w) && pc in OverlayGraph(v).next
    ensures pc in OverlayGraph(w).next
    ensures s in OverlayGraph(v).next[pc] ==> s in OverlayGraph(w).next[pc]
  {
    hide OverlayGraph, OverlayEdges, FieldsOf;
    OverlayGraphAt(v, pc);
    OverlayGraphAt(w, pc);
    if s in OverlayGraph(v).next[pc] {
      EdgesNarrow(v, w, pc, FieldsOf(v.img.ReadWord(pc).value), s);
    }
  }

  lemma ReachNarrow(v: Window, w: Window, a: int)
    requires Narrower(v, w) && a in Reach(OverlayGraph(v), v.entry)
    ensures a in Reach(OverlayGraph(w), w.entry)
  {
    hide OverlayGraph, ClosedSet;
    GraphNarrow(v, w, a, a);
    forall t: set<int> {:trigger ClosedSet(OverlayGraph(w), w.entry, t)} | ClosedSet(OverlayGraph(w), w.entry, t)
      ensures a in t
    {
      ClosedNarrow(v, w, t);
    }
  }

  lemma ClosedNarrow(v: Window, w: Window, t: set<int>)
    requires Narrower(v, w) && ClosedSet(OverlayGraph(w), w.entry, t)
    ensures ClosedSet(OverlayGraph(v), v.entry, set x | x in t && x in OverlayGraph(v).next)
  {
    hide OverlayGraph;
    var g := OverlayGraph(v);
    if v.entry in g.next {
      GraphNarrow(v, w, v.entry, v.entry);
    }
    forall pc, s | pc in t && pc in g.next && s in g.next[pc] && s in g.next ensures s in t {
      GraphNarrow(v, w, pc, s);
      GraphNarrow(v, w, s, s);
    }
  }

  /** In a narrower window a walk calls nothing new, if no edge of the wider one lands on a
      delay slot. */
  lemma NarrowerCalls(v: Window, w: Window)
    requires Narrower(v, w) && NoEdgeOntoSlot(OverlayGraph(w), w.entry)
    ensures DirectCalls(v, OverlayWalk(v).expanded) <= DirectCalls(w, OverlayWalk(w).expanded)
  {
    hide OverlayGraph, Reach, Walk, DirectCall, NoEdgeOntoSlot;
    WalkIsComplete(OverlayGraph(w), true, w.entry);
    forall pc | pc in OverlayWalk(v).expanded && DirectCall(v, pc).Some?
      ensures pc in OverlayWalk(w).expanded && DirectCall(w, pc) == DirectCall(v, pc)
    {
      ExpandedReach(v, pc);
      ReachNarrow(v, w, pc);
      SameCall(v, w, pc);
    }
  }

  lemma ExpandedReach(v: Window, pc: int)
    requires pc in OverlayWalk(v).expanded
    ensures pc in Reach(OverlayGraph(v), v.entry)
  {
    hide OverlayGraph, Reach, Walk;
    WalkProgress(OverlayGraph(v), true, v.entry);
  }

  lemma SameCall(v: Window, w: Window, pc: int)
    requires Narrower(v, w)
    ensures DirectCall(w, pc) == DirectCall(v, pc)
  {
    hide FieldsOf, Callable, WideJumpTarget, OverlayKind;
  }

  // ---- the roots at the end ----

  lemma WindowNarrows(c: Capture, roots: set<Word>, known: set<Word>, e: Word)
    requires roots <= known && c.Region(e)
    ensures Narrower(WindowOf(c, known, e), WindowOf(c, roots, e))
  {
    hide NextCut;
    NextCutIsNext(roots, e, c.Hi());
    NextCutIsNext(known, e, c.Hi());
    var n := NextCut(roots, e, c.Hi());
    if n < c.Hi() {
      var w: Word := n;
      assert w in known;
    }
  }

  /** The roots call only roots, in windows cut at the final roots. */
  ghost predicate ClosedAtEnd(c: Capture, known: set<Word>) {
    forall e, a: Word :: e in known && a in CallsOf(c, known, e) ==> a in known
  }

  /** Closure at the caps of the time carries over to the final caps, if in none of the walks
      an edge landed on a delay slot. */
  lemma ClosedAtFinalCaps(c: Capture, known: set<Word>, walked: map<Word, set<Word>>)
    requires known <= walked.Keys && ClosedWhenWalked(c, known, walked) && forall e :: e in known ==> c.Region(e)
    requires forall e :: e in known ==> NoEdgeOntoSlot(OverlayGraph(WindowOf(c, walked[e], e)), e)
    ensures ClosedAtEnd(c, known)
  {
    hide NoEdgeOntoSlot, OverlayGraph, OverlayWalk, DirectCalls, NextCut;
    forall e, a: Word | e in known && a in CallsOf(c, known, e) ensures a in known {
      WindowNarrows(c, walked[e], known, e);
      NarrowerCalls(WindowOf(c, known, e), WindowOf(c, walked[e], e));
    }
  }

  // ---- a run of the loop whose roots do not stay closed ----

  /** The function at 0x1000 reaches a call at 0x101C by a long way.  While the code at 0x1024
      counts as part of it, a shorter way leads through there to the return at 0x1018, whose
      delay slot the call is, so the walk never makes the call.  Once 0x1024 is a root, called
      from the function at 0x1030, that way is cut off, and the walk makes the call. */
  const LATE_CODE: seq<Word> :=
    [0x1000_0008, 0, 0, 0, 0x0800_0407, 0, 0x03E0_0008, 0x0C00_0410, 0,
     0x27BD_FFF8, 0x0800_0406, 0,
     0x0C00_0409, 0, 0x03E0_0008, 0, 0x03E0_0008, 0]

  function LateCapture(): Capture {
    Capture(ImageOf(0x1000, LATE_CODE), 72, 0, 0, {}, {}, {}, {}, {0x1000, 0x1030}, false)
  }

  /** The roots declared, and those with the one called. */
  const FIRST_ROOTS: set<Word> := {0x1000, 0x1030}
  const LAST_ROOTS: set<Word> := {0x1000, 0x1024, 0x1030}

  lemma BranchFields()
    ensures FieldsOf(0x1000_0008) == Fields(4, 0, 0, 0, 0, 8, 8, 8, 8)
  {
  }

  lemma ReturnFields()
    ensures FieldsOf(0x03E0_0008) == Fields(0, 31, 0, 0, 0, 8, 8, 8, 0x03E0_0008)
  {
  }

  lemma NopFields()
    ensures FieldsOf(0) == Fields(0, 0, 0, 0, 0, 0, 0, 0, 0)
  {
  }

  lemma AdjustFields()
    ensures FieldsOf(0x27BD_FFF8) == Fields(9, 29, 29, 31, 31, 0x38, 0xFFF8, -8, 0x03BD_FFF8)
  {
    assert 0x27BD_FFF8 / 0x400_0000 == 9 && 0x27BD_FFF8 / 0x20_0000 % 32 == 29 && 0x27BD_FFF8 / 0x1_0000 % 32 == 29;
    assert 0x27BD_FFF8 / 0x800 % 32 == 31 && 0x27BD_FFF8 / 0x40 % 32 == 31 && 0x27BD_FFF8 % 64 == 0x38;
  }

  /** A jump or call to a low address. */
  lemma JumpFields(w: Word, pc: int)
    requires (0x0800_0000 <= w < 0x0801_0000 || 0x0C00_0000 <= w < 0x0C01_0000) && 0 <= pc < 0x1_0000
    ensures OverlayKind(FieldsOf(w)) == if w < 0x0C00_0000 then JumpTo else Call
    ensures WideJumpTarget(pc, FieldsOf(w)) == 4 * (w % 0x400_0000)
  {
    assert w / 0x400_0000 == if w < 0x0C00_0000 then 2 else 3;
  }

  lemma LateWord(i: nat)
    requires i < 18
    ensures ImageOf(0x1000, LATE_CODE).ReadWord(0x1000 + 4 * i) == Some(LATE_CODE[i])
  {
    hide BytesOf;
    WordOfImage(0x1000, LATE_CODE, i);
  }

  predicate IsLate(v: Window) {
    v.img == ImageOf(0x1000, LATE_CODE) && v.size == 72
  }

  /** The code as the walker sees it, instruction by instruction. */
  function LateEdges(v: Window, i: nat): seq<int> {
    if i == 0 then IfIn(v, 0x1008) + IfIn(v, 0x1024)
    else if i == 4 then IfIn(v, 0x101C)
    else if i == 6 || i == 14 || i == 16 then []
    else if i == 7 then IfIn(v, 0x1024)
    else if i == 10 then IfIn(v, 0x1018)
    else if i == 12 then IfIn(v, 0x1038)
    else IfIn(v, 0x1004 + 4 * i)
  }

  predicate LateTransfer(i: nat) {
    i == 0 || i == 4 || i == 6 || i == 7 || i == 10 || i == 12 || i == 14 || i == 16
  }

  lemma LateKinds(v: Window, i: nat)
    requires i < 18
    ensures OverlayEdges(v, 0x1000 + 4 * i, FieldsOf(LATE_CODE[i])) == LateEdges(v, i)
    ensures OverlayKind(FieldsOf(LATE_CODE[i])) != Normal <==> LateTransfer(i)
    ensures OverlayKind(FieldsOf(LATE_CODE[i])) == Call <==> i == 7 || i == 12
  {
    hide FieldsOf, WideJumpTarget, IfIn;
    BranchFields();
    ReturnFields();
    NopFields();
    AdjustFields();
    JumpFields(0x0800_0407, 0x1010);
    JumpFields(0x0C00_0410, 0x101C);
    JumpFields(0x0800_0406, 0x1028);
    JumpFields(0x0C00_0409, 0x1030);
  }

  lemma LateGraph(v: Window, i: nat)
    requires IsLate(v) && i < 18
    ensures var g, pc := OverlayGraph(v), 0x1000 + 4 * i;
            && (pc in g.next <==> v.InFunction(pc))
            && (pc in g.next ==> g.next[pc] == LateEdges(v, i))
            && (pc in g.next ==> SlotOf(g, pc) == if LateTransfer(i) && v.InFunction(pc + 4) then {pc + 4} else {})
  {
    hide OverlayGraph, LateEdges, LateTransfer, OverlayEdges, FieldsOf, ImageOf, Image.ReadWord, SlotOf;
    LateWord(i);
    LateKinds(v, i);
    OverlayGraphAt(v, 0x1000 + 4 * i);
  }

  lemma LateRegion(v: Window, a: int)
    requires IsLate(v)
    ensures v.InRegion(a) <==> 0x1000 <= a < 0x1048
  {
    hide BytesOf;
  }

  lemma LateCalls(v: Window, i: nat)
    requires IsLate(v) && i < 18
    ensures DirectCall(v, 0x1000 + 4 * i) == if i == 7 then Some(0x1040) else if i == 12 then Some(0x1024) else None
  {
    hide FieldsOf, ImageOf, Image.ReadWord, WideJumpTarget, OverlayKind, Callable;
    LateWord(i);
    LateKinds(v, i);
    JumpFields(0x0C00_0410, 0x101C);
    JumpFields(0x0C00_0409, 0x1030);
    LateCallable();
    LateRegion(v, 0x1040);
    LateRegion(v, 0x1024);
    assert Aligned(0x1040) && Aligned(0x1024);
  }

  lemma LateCallable()
    ensures Callable(ImageOf(0x1000, LATE_CODE), 0x1040) && Callable(ImageOf(0x1000, LATE_CODE), 0x1024)
  {
    hide FieldsOf, ImageOf, Image.ReadWord;
    LateWord(16);
    LateWord(14);
    LateWord(9);
    LateWord(8);
    ReturnFields();
    NopFields();
    AdjustFields();
  }

  lemma WalkSkips(g: Graph, pc: int, rest: seq<int>, w: Walked)
    requires pc in w.visited || pc !in g.next
    ensures Explore(g, true, [pc] + rest, w) == Explore(g, true, rest, w)
  {
    assert ([pc] + rest)[1..] == rest;
  }

  function LateSlots(v: Window, i: nat): set<int> {
    if LateTransfer(i) && v.InFunction(0x1004 + 4 * i) then {0x1004 + 4 * i} else {}
  }

  function LateMarked(v: Window, i: nat, w: Walked): Walked {
    Walked(w.visited + {0x1000 + 4 * i} + LateSlots(v, i), w.expanded + {0x1000 + 4 * i})
  }

  /** One instruction of a walk: what it queues and what it marks. */
  lemma LateStep(v: Window, i: nat, work: seq<int>, w: Walked, work': seq<int>)
    requires IsLate(v) && i < 18 && v.InFunction(0x1000 + 4 * i) && 0x1000 + 4 * i !in w.visited
    requires work != [] && work[0] == 0x1000 + 4 * i && work' == work[1..] + LateEdges(v, i)
    ensures Explore(OverlayGraph(v), true, work, w) == Explore(OverlayGraph(v), true, work', LateMarked(v, i, w))
  {
    hide OverlayGraph, LateEdges, LateTransfer, SlotOf, Window.InFunction, IsLate;
    LateGraph(v, i);
  }

  lemma WalkDone(g: Graph, w: Walked)
    ensures Explore(g, true, [], w) == w
  {
  }

  function LateWindow(entry: int, cap: int): Window {
    Window(ImageOf(0x1000, LATE_CODE), 72, entry, cap)
  }

  lemma InLate(entry: int, cap: int, a: int)
    ensures LateWindow(entry, cap).InFunction(a) <==> 0x1000 <= a < 0x1048 && entry <= a < cap && Aligned(a)
  {
    hide BytesOf;
  }

  lemma WideEdges()
    ensures var v := LateWindow(0x1000, 0x1030);
            && LateEdges(v, 0) == [0x1008, 0x1024] && LateSlots(v, 0) == {0x1004}
            && LateEdges(v, 2) == [0x100C] && LateSlots(v, 2) == {}
            && LateEdges(v, 9) == [0x1028] && LateSlots(v, 9) == {}
            && LateEdges(v, 3) == [0x1010] && LateSlots(v, 3) == {}
            && LateEdges(v, 10) == [0x1018] && LateSlots(v, 10) == {0x102C}
            && LateEdges(v, 4) == [0x101C] && LateSlots(v, 4) == {0x1014}
            && LateEdges(v, 6) == [] && LateSlots(v, 6) == {0x101C}
  {
    hide ImageOf, Window.InFunction;
    InLate(0x1000, 0x1030, 0x1004);
    InLate(0x1000, 0x1030, 0x1008);
    InLate(0x1000, 0x1030, 0x100C);
    InLate(0x1000, 0x1030, 0x1010);
    InLate(0x1000, 0x1030, 0x1014);
    InLate(0x1000, 0x1030, 0x1018);
    InLate(0x1000, 0x1030, 0x101C);
    InLate(0x1000, 0x1030, 0x1024);
    InLate(0x1000, 0x1030, 0x1028);
    InLate(0x1000, 0x1030, 0x102C);
  }

  lemma WideHead()
    ensures var v := LateWindow(0x1000, 0x1030);
            Explore(OverlayGraph(v), true, [0x1000], NOTHING)
            == Explore(OverlayGraph(v), true, [0x1028, 0x1010],
                       Walked({0x1000, 0x1004, 0x1008, 0x1024, 0x100C}, {0x1000, 0x1008, 0x1024, 0x100C}))
  {
    hide OverlayGraph, Explore, LateWindow, Window.InFunction, LateEdges, LateSlots, IsLate;
    var v := LateWindow(0x1000, 0x1030);
    LateIs(0x1000, 0x1030);
    WideEdges();
    InLate(0x1000, 0x1030, 0x1000);
    InLate(0x1000, 0x1030, 0x1008);
    InLate(0x1000, 0x1030, 0x100C);
    InLate(0x1000, 0x1030, 0x1024);
    LateStep(v, 0, [0x1000], NOTHING, [0x1008, 0x1024]);
    var w1 := LateMarked(v, 0, NOTHING);
    LateStep(v, 2, [0x1008, 0x1024], w1, [0x1024, 0x100C]);
    var w2 := LateMarked(v, 2, w1);
    LateStep(v, 9, [0x1024, 0x100C], w2, [0x100C, 0x1028]);
    var w3 := LateMarked(v, 9, w2);
    LateStep(v, 3, [0x100C, 0x1028], w3, [0x1028, 0x1010]);
    assert LateMarked(v, 3, w3) == Walked({0x1000, 0x1004, 0x1008, 0x1024, 0x100C}, {0x1000, 0x1008, 0x1024, 0x100C});
  }

  lemma WideRest(w: Walked)
    requires w == Walked({0x1000, 0x1004, 0x1008, 0x1024, 0x100C}, {0x1000, 0x1008, 0x1024, 0x100C})
    ensures var v := LateWindow(0x1000, 0x1030);
            Explore(OverlayGraph(v), true, [0x1028, 0x1010], w).expanded
            == {0x1000, 0x1008, 0x1024, 0x100C, 0x1028, 0x1010, 0x1018}
  {
    hide OverlayGraph, Explore, LateWindow, Window.InFunction, LateEdges, LateSlots, IsLate;
    var v := LateWindow(0x1000, 0x1030);
    LateIs(0x1000, 0x1030);
    WideEdges();
    InLate(0x1000, 0x1030, 0x1028);
    InLate(0x1000, 0x1030, 0x1010);
    InLate(0x1000, 0x1030, 0x1018);
    LateStep(v, 10, [0x1028, 0x1010], w, [0x1010, 0x1018]);
    var w5 := LateMarked(v, 10, w);
    LateStep(v, 4, [0x1010, 0x1018], w5, [0x1018, 0x101C]);
    var w6 := LateMarked(v, 4, w5);
    LateStep(v, 6, [0x1018, 0x101C], w6, [0x101C]);
    var w7 := LateMarked(v, 6, w6);
    WalkSkips(OverlayGraph(v), 0x101C, [], w7);
    assert [0x101C] + [] == [0x101C];
    WalkDone(OverlayGraph(v), w7);
  }

  /** With 0x1024 inside, the call at 0x101C is marked as a slot before it is reached. */
  lemma WideWalk()
    ensures OverlayWalk(LateWindow(0x1000, 0x1030)).expanded == {0x1000, 0x1008, 0x1024, 0x100C, 0x1028, 0x1010, 0x1018}
  {
    hide OverlayGraph, Explore;
    WideHead();
    WideRest(Walked({0x1000, 0x1004, 0x1008, 0x1024, 0x100C}, {0x1000, 0x1008, 0x1024, 0x100C}));
  }

  lemma LateIs(entry: int, cap: int)
    ensures IsLate(LateWindow(entry, cap)) && LateWindow(entry, cap).entry == entry
  {
    hide ImageOf;
  }

  lemma NarrowEdges()
    ensures var v := LateWindow(0x1000, 0x1024);
            && LateEdges(v, 0) == [0x1008] && LateSlots(v, 0) == {0x1004}
            && LateEdges(v, 2) == [0x100C] && LateSlots(v, 2) == {}
            && LateEdges(v, 3) == [0x1010] && LateSlots(v, 3) == {}
            && LateEdges(v, 4) == [0x101C] && LateSlots(v, 4) == {0x1014}
            && LateEdges(v, 7) == [] && LateSlots(v, 7) == {0x1020}
  {
    hide ImageOf, Window.InFunction;
    InLate(0x1000, 0x1024, 0x1004);
    InLate(0x1000, 0x1024, 0x1008);
    InLate(0x1000, 0x1024, 0x100C);
    InLate(0x1000, 0x1024, 0x1010);
    InLate(0x1000, 0x1024, 0x1014);
    InLate(0x1000, 0x1024, 0x101C);
    InLate(0x1000, 0x1024, 0x1020);
    InLate(0x1000, 0x1024, 0x1024);
  }

  /** With 0x1024 outside, it is reached. */
  lemma NarrowWalk()
    ensures 0x101C in OverlayWalk(LateWindow(0x1000, 0x1024)).expanded
  {
    hide OverlayGraph, Explore, LateWindow, Window.InFunction, LateEdges, LateSlots, IsLate;
    var v := LateWindow(0x1000, 0x1024);
    LateIs(0x1000, 0x1024);
    NarrowEdges();
    InLate(0x1000, 0x1024, 0x1000);
    InLate(0x1000, 0x1024, 0x1008);
    InLate(0x1000, 0x1024, 0x100C);
    InLate(0x1000, 0x1024, 0x1010);
    InLate(0x1000, 0x1024, 0x101C);
    LateStep(v, 0, [0x1000], NOTHING, [0x1008]);
    var w1 := LateMarked(v, 0, NOTHING);
    LateStep(v, 2, [0x1008], w1, [0x100C]);
    var w2 := LateMarked(v, 2, w1);
    LateStep(v, 3, [0x100C], w2, [0x1010]);
    var w3 := LateMarked(v, 3, w2);
    LateStep(v, 4, [0x1010], w3, [0x101C]);
    var w4 := LateMarked(v, 4, w3);
    LateStep(v, 7, [0x101C], w4, []);
    WalkDone(OverlayGraph(v), LateMarked(v, 7, w4));
  }

  lemma CallerWalk()
    ensures OverlayWalk(LateWindow(0x1030, 0x1048)).expanded == {0x1030, 0x1038}
  {
    hide OverlayGraph, Explore, LateWindow, Window.InFunction, LateEdges, IsLate;
    var v := LateWindow(0x1030, 0x1048);
    LateIs(0x1030, 0x1048);
    InLate(0x1030, 0x1048, 0x1030);
    InLate(0x1030, 0x1048, 0x1038);
    assert LateEdges(v, 12) == [0x1038] && LateEdges(v, 14) == [] by { CallerEdges(); }
    LateStep(v, 12, [0x1030], NOTHING, [0x1038]);
    var w1 := LateMarked(v, 12, NOTHING);
    LateStep(v, 14, [0x1038], w1, []);
    WalkDone(OverlayGraph(v), LateMarked(v, 14, w1));
  }

  lemma CallerEdges()
    ensures var v := LateWindow(0x1030, 0x1048); LateEdges(v, 12) == [0x1038] && LateEdges(v, 14) == []
  {
    hide ImageOf, Window.InFunction;
    InLate(0x1030, 0x1048, 0x1038);
  }

  lemma CalleeWalk()
    ensures OverlayWalk(LateWindow(0x1024, 0x1030)).expanded == {0x1024, 0x1028}
  {
    hide OverlayGraph, Explore, LateWindow, Window.InFunction, LateEdges, IsLate;
    var v := LateWindow(0x1024, 0x1030);
    LateIs(0x1024, 0x1030);
    InLate(0x1024, 0x1030, 0x1024);
    InLate(0x1024, 0x1030, 0x1028);
    assert LateEdges(v, 9) == [0x1028] && LateEdges(v, 10) == [] by { CalleeEdges(); }
    LateStep(v, 9, [0x1024], NOTHING, [0x1028]);
    var w1 := LateMarked(v, 9, NOTHING);
    LateStep(v, 10, [0x1028], w1, []);
    WalkDone(OverlayGraph(v), LateMarked(v, 10, w1));
  }

  lemma CalleeEdges()
    ensures var v := LateWindow(0x1024, 0x1030); LateEdges(v, 9) == [0x1028] && LateEdges(v, 10) == []
  {
    hide ImageOf, Window.InFunction;
    InLate(0x1024, 0x1030, 0x1028);
    InLate(0x1024, 0x1030, 0x1018);
  }

  lemma WindowAt(roots: set<Word>, e: Word, n: int)
    requires e < n <= 0x1048 && (n == 0x1048 || n in roots) && forall y :: e < y < n ==> y !in roots
    requires 0x1048 !in roots
    ensures WindowOf(LateCapture(), roots, e) == LateWindow(e, n)
  {
    hide ImageOf, NextCut;
    LateHi();
    NextCutIsNext(roots, e, 0x1048);
  }

  lemma LateHi()
    ensures LateCapture().Hi() == 0x1048 && LateCapture().Valid() && LateCapture().img == ImageOf(0x1000, LATE_CODE)
  {
    hide BytesOf;
  }

  lemma CallsAt(v: Window, pc: int, t: int)
    requires pc in OverlayWalk(v).expanded && DirectCall(v, pc) == Some(t)
    ensures t in DirectCalls(v, OverlayWalk(v).expanded)
  {
    hide DirectCall, OverlayWalk;
  }

  /** The calls of the four walks. */
  lemma LateFindings()
    ensures var c := LateCapture();
            && CallsOf(c, FIRST_ROOTS, 0x1000) == {} && CallsOf(c, FIRST_ROOTS, 0x1030) == {0x1024}
            && CallsOf(c, LAST_ROOTS, 0x1024) == {} && 0x1040 in CallsOf(c, LAST_ROOTS, 0x1000)
  {
    hide ImageOf, LateCapture, WindowOf, OverlayWalk, DirectCall, LateWindow;
    WindowAt(FIRST_ROOTS, 0x1000, 0x1030);
    WindowAt(FIRST_ROOTS, 0x1030, 0x1048);
    WindowAt(LAST_ROOTS, 0x1024, 0x1030);
    WindowAt(LAST_ROOTS, 0x1000, 0x1024);
    WideWalk();
    CallerWalk();
    CalleeWalk();
    NarrowWalk();
    WideCalls();
    OtherCalls();
    CallsAt(LateWindow(0x1000, 0x1024), 0x101C, 0x1040);
  }

  lemma WideCalls()
    ensures forall pc {:trigger DirectCall(LateWindow(0x1000, 0x1030), pc)} ::
              pc in {0x1000, 0x1008, 0x1024, 0x100C, 0x1028, 0x1010, 0x1018} ==>
                DirectCall(LateWindow(0x1000, 0x1030), pc) == None
  {
    hide LateWindow, DirectCall, IsLate;
    var v := LateWindow(0x1000, 0x1030);
    LateIs(0x1000, 0x1030);
    LateCalls(v, 0);
    LateCalls(v, 2);
    LateCalls(v, 9);
    LateCalls(v, 3);
    LateCalls(v, 10);
    LateCalls(v, 4);
    LateCalls(v, 6);
  }

  lemma OtherCalls()
    ensures DirectCall(LateWindow(0x1030, 0x1048), 0x1030) == Some(0x1024)
            && DirectCall(LateWindow(0x1030, 0x1048), 0x1038) == None
    ensures DirectCall(LateWindow(0x1024, 0x1030), 0x1024) == None
            && DirectCall(LateWindow(0x1024, 0x1030), 0x1028) == None
    ensures DirectCall(LateWindow(0x1000, 0x1024), 0x101C) == Some(0x1040)
  {
    hide LateWindow, DirectCall, IsLate;
    LateIs(0x1030, 0x1048);
    LateIs(0x1024, 0x1030);
    LateIs(0x1000, 0x1024);
    LateCalls(LateWindow(0x1030, 0x1048), 12);
    LateCalls(LateWindow(0x1030, 0x1048), 14);
    LateCalls(LateWindow(0x1024, 0x1030), 9);
    LateCalls(LateWindow(0x1024, 0x1030), 10);
    LateCalls(LateWindow(0x1000, 0x1024), 7);
  }

  /** Walking 0x1000 and 0x1030 with the first roots known, then 0x1024 with all, closes the
      roots walk by walk; under the final caps the first of them calls 0x1040, which is none. */
  lemma LateRootEscapes()
    ensures var c := LateCapture();
            var walked: map<Word, set<Word>> := map[0x1000 := FIRST_ROOTS, 0x1030 := FIRST_ROOTS, 0x1024 := LAST_ROOTS];
            && c.Valid() && c.declared == FIRST_ROOTS && LAST_ROOTS <= walked.Keys
              && ClosedWhenWalked(c, LAST_ROOTS, walked)
            && !ClosedAtEnd(c, LAST_ROOTS)
  {
    hide CallsOf, ImageOf;
    LateHi();
    LateFindings();
    var a: Word := 0x1040;
    assert a !in LAST_ROOTS;
  }
}
