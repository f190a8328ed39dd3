/** Which captured addresses of an overlay become functions: classify_overlay_seeds.  Roots
    are walked, direct calls found on the way become roots, and in the kernel window a
    dispatched address no root's walk covers is made a root of its own.

    The recorded audit counts are not part of this. */
module Seeds {
  import opened Words
  import opened Addresses
  import opened ControlFlow
  import opened Walkers

  datatype Reason =
    | DispatchEntry | DirectJalTarget | FunctionPointerTarget | TomlDeclaredEntry | DispatchInterior | DispatchRoot
    | BranchTargetOnly | ObservedPcOnly | UnknownSeed

  predicate Fatal(r: Reason) {
    r == BranchTargetOnly || r == ObservedPcOnly || r == UnknownSeed
  }

  /** A capture: the overlay's bytes, the addresses each source names, the main program's
      text range, and whether the capture is of the old format. */
  datatype Capture = Capture(img: Image, size: int, gameLo: int, gameHi: int, seeds: set<Word>, executed: set<Word>,
                             dispatched: set<Word>, pointers: set<Word>, declared: set<Word>, oldFormat: bool) {
    function Hi(): int {
      img.load + size
    }

    predicate Region(a: int) {
      img.load <= a < Hi() && Aligned(a)
    }

    predicate KernelWindow() {
      img.load % 0x2000_0000 < 0x1_0000
    }

    predicate Valid() {
      0 <= img.load && Hi() <= WORD_LIMIT
    }

    function Candidates(): set<Word> {
      set a | a in executed + dispatched + pointers + seeds + declared && Region(a)
    }

    /** Old captures named interpreted addresses; those with boundary evidence count. */
    function CallableSeeds(): set<Word> {
      set a | a in seeds && Region(a) && Callable(img, a)
    }

    function Regional(): set<Word> {
      set a: Word | img.load <= a < Hi() && Aligned(a)
    }
  }

  // ---- walks from a set of roots, each capped at the next ----

  function WindowOf(c: Capture, roots: set<Word>, r: Word): Window {
    Window(c.img, c.size, r, NextCut(roots, r, c.Hi()))
  }

  ghost predicate CoveredBy(c: Capture, roots: set<Word>, a: int) {
    exists r :: r in roots && a in OverlayWalk(WindowOf(c, roots, r)).visited
  }

  function Tables(v: Window): set<int> {
    JumpTableTargets(v, OverlayWalk(v).expanded)
  }

  function Branches(v: Window): set<int> {
    BranchTargets(v, OverlayWalk(v).expanded)
  }

  /** `a` is a jump-table target of the walk of some root. */
  ghost predicate TableTargetBy(c: Capture, roots: set<Word>, a: int) {
    exists r :: r in roots && a in Tables(WindowOf(c, roots, r))
  }

  ghost predicate BranchTargetBy(c: Capture, roots: set<Word>, a: int) {
    exists r :: r in roots && a in Branches(WindowOf(c, roots, r))
  }

  method WalkAll(c: Capture, roots: set<Word>) returns (visited: set<int>, branches: set<int>, tables: set<int>)
    ensures forall a :: a in visited <==> CoveredBy(c, roots, a)
    ensures forall a :: a in branches <==> BranchTargetBy(c, roots, a)
    ensures forall a :: a in tables <==> TableTargetBy(c, roots, a)
  {
    hide OverlayWalk, JumpTableTargets, BranchTargets, NextCut;
    visited, branches, tables := {}, {}, {};
    var todo := roots;
    while todo != {}
      invariant todo <= roots
      invariant forall a :: a in visited <==>
              exists r :: r in roots && r !in todo && a in OverlayWalk(WindowOf(c, roots, r)).visited
      invariant forall a :: a in branches <==>
              exists r :: r in roots && r !in todo && a in Branches(WindowOf(c, roots, r))
      invariant forall a :: a in tables <==> exists r :: r in roots && r !in todo && a in Tables(WindowOf(c, roots, r))
      decreases |todo|
    {
      var r :| r in todo;
      todo := todo - {r};
      var v := WindowOf(c, roots, r);
      var vs, cs, bs, ts := WalkOverlayFunction(v);
      visited, branches, tables := visited + vs, branches + bs, tables + ts;
    }
  }

  // ---- including an address ----

  /** The two dictionaries being filled. */
  datatype Tally = Tally(included: map<Word, Reason>, excluded: map<Word, Reason>)

  /** Where a jump goes, as far as it is acceptable for code. */
  predicate KnownTarget(c: Capture, t: int) {
    var phys := t % 0x2000_0000;
    var lo := c.img.load % 0x2000_0000;
    || lo <= phys < lo + c.size
    || (c.gameHi > c.gameLo && c.gameLo <= phys < c.gameHi)
    || 0x1FC0_0000 <= phys < 0x1FC8_0000 || 0xBFC0_0000 <= t < 0xBFC8_0000
  }

  /** No function starts with an undefined word, a jump to nowhere, or a call into the middle
      of something in the overlay. */
  predicate ImpossibleStart(c: Capture, a: int) {
    var w := c.img.ReadWord(a);
    || !IsValidWord(w)
    || (OverlayKind(FieldsOf(w.value)) == JumpTo && !KnownTarget(c, WideJumpTarget(a, FieldsOf(w.value))))
    || (OverlayKind(FieldsOf(w.value)) == Call && c.Region(WideJumpTarget(a, FieldsOf(w.value)))
        && !Callable(c.img, WideJumpTarget(a, FieldsOf(w.value))))
  }

  function Include(c: Capture, tables: set<int>, t: Tally, a: Word, r: Reason): Tally {
    if !c.Region(a) then t.(excluded := t.excluded[a := UnknownSeed])
    else if r == DispatchEntry && ImpossibleStart(c, a) then t.(excluded := t.excluded[a := UnknownSeed])
    else if r == DispatchEntry && (a in tables || !Callable(c.img, a)) then
      (if a in t.included then t else t.(included := t.included[a := DispatchInterior]))
    else if r != DispatchEntry && r != TomlDeclaredEntry && a in tables && !Callable(c.img, a) then
      t.(excluded := t.excluded[a := BranchTargetOnly])
    else if a !in t.included || t.included[a] == FunctionPointerTarget || t.included[a] == DispatchInterior then
      t.(included := t.included[a := r])
    else t
  }

  /** Walk roots: everything included but the interiors. */
  function Roots(t: Tally): set<Word> {
    set a | a in t.included && t.included[a] != DispatchInterior
  }

  /** What holds of the tally throughout. */
  ghost predicate Sound(c: Capture, t: Tally) {
    && (forall a :: a in t.included ==> c.Region(a) && !Fatal(t.included[a]))
    && (forall a :: a in t.included && (t.included[a] == DispatchInterior || t.included[a] == DispatchRoot) ==>
      a in c.dispatched)
    && (forall a :: a in t.included && t.included[a] == DispatchRoot ==>
      c.KernelWindow() && IsValidWord(c.img.ReadWord(a)))
  }

  /** Nothing included is dropped, and a root stays a root. */
  ghost predicate Grows(t: Tally, t': Tally) {
    && t.included.Keys <= t'.included.Keys && Roots(t) <= Roots(t') && t.excluded.Keys <= t'.excluded.Keys
    && forall a :: a in t.included && t.included[a] == DispatchRoot ==>
      a in t'.included && t'.included[a] == DispatchRoot
  }

  /** Offered for reason `r`, the address becomes a root. */
  predicate Admitted(c: Capture, tables: set<int>, a: Word, r: Reason) {
    && c.Region(a)
    && match r
       case DispatchEntry => !ImpossibleStart(c, a) && a !in tables && Callable(c.img, a)
       case TomlDeclaredEntry => true
       case _ => a !in tables || Callable(c.img, a)
  }

  lemma AdmittedBecomesRoot(c: Capture, tables: set<int>, t: Tally, a: Word, r: Reason)
    requires r == DispatchEntry || r == TomlDeclaredEntry || r == FunctionPointerTarget
    ensures Admitted(c, tables, a, r) ==> a in Roots(Include(c, tables, t, a, r))
    ensures r == DispatchEntry && c.Region(a) && !ImpossibleStart(c, a) ==> a in Include(c, tables, t, a, r).included
  {
    hide ImpossibleStart, Callable;
  }

  lemma IncludeIsSound(c: Capture, tables: set<int>, t: Tally, a: Word, r: Reason)
    requires Sound(c, t) && !Fatal(r) && r != DispatchRoot && r != DispatchInterior
            && (r == DispatchEntry ==> a in c.dispatched)
    ensures Sound(c, Include(c, tables, t, a, r)) && Grows(t, Include(c, tables, t, a, r))
    ensures var t' := Include(c, tables, t, a, r);
            c.Region(a) ==> a in t'.included || a in t'.excluded
  {
    hide ImpossibleStart, Callable, IsValidWord;
  }

  method IncludeAll(c: Capture, tables: set<int>, t0: Tally, addrs: set<Word>, r: Reason) returns (t: Tally)
    requires Sound(c, t0) && (r == DispatchEntry || r == TomlDeclaredEntry || r == FunctionPointerTarget)
    requires r == DispatchEntry ==> addrs <= c.dispatched
    ensures Sound(c, t) && Grows(t0, t)
    ensures forall a :: a in addrs && Admitted(c, tables, a, r) ==> a in Roots(t)
    ensures Roots(t) <= Roots(t0) + addrs
    ensures r == DispatchEntry ==> forall a :: a in addrs && c.Region(a) && !ImpossibleStart(c, a) ==> a in t.included
  {
    hide Sound, Include, Grows, Admitted, ImpossibleStart, Roots;
    t := t0;
    GrowsRefl(t0);
    var todo := addrs;
    while todo != {}
      invariant todo <= addrs && Sound(c, t) && Grows(t0, t)
      invariant forall a :: a in addrs && a !in todo && Admitted(c, tables, a, r) ==> a in Roots(t)
      invariant Roots(t) <= Roots(t0) + addrs
      invariant r == DispatchEntry ==>
                  forall a :: a in addrs && a !in todo && c.Region(a) && !ImpossibleStart(c, a) ==> a in t.included
      decreases |todo|
    {
      var a :| a in todo;
      todo := todo - {a};
      IncludeIsSound(c, tables, t, a, r);
      AdmittedBecomesRoot(c, tables, t, a, r);
      OnlyThatRoot(c, tables, t, a, r);
      var t' := Include(c, tables, t, a, r);
      GrowsTrans(t0, t, t');
      GrowsKeys(t, t');
      GrowsRoots(t, t');
      t := t';
    }
  }

  lemma OnlyThatRoot(c: Capture, tables: set<int>, t: Tally, a: Word, r: Reason)
    ensures Roots(Include(c, tables, t, a, r)) <= Roots(t) + {a}
  {
    hide ImpossibleStart, Callable;
  }

  lemma GrowsRefl(t: Tally)
    ensures Grows(t, t)
  {
  }

  lemma GrowsTrans(t0: Tally, t1: Tally, t2: Tally)
    requires Grows(t0, t1) && Grows(t1, t2)
    ensures Grows(t0, t2)
  {
  }

  lemma GrowsKeys(t: Tally, t': Tally)
    requires Grows(t, t')
    ensures t.included.Keys <= t'.included.Keys && t.excluded.Keys <= t'.excluded.Keys
  {
  }

  // ---- direct calls become roots ----

  lemma DirectCallsAreCallable(v: Window, expanded: set<int>)
    ensures forall t :: t in DirectCalls(v, expanded) ==> v.InRegion(t) && Aligned(t) && Callable(v.img, t)
  {
    hide Callable, OverlayKind, FieldsOf, WideJumpTarget;
  }

  /** A callable address that is no root yet becomes one. */
  lemma CalleeBecomesRoot(c: Capture, tables: set<int>, t: Tally, a: Word)
    requires Sound(c, t) && c.Region(a) && Callable(c.img, a) && a !in Roots(t)
    ensures var t' := Include(c, tables, t, a, DirectJalTarget);
            a in t'.included && Roots(t') == Roots(t) + {a}
  {
    hide Callable, ImpossibleStart, Sound;
  }

  lemma RootsInRegion(c: Capture, t: Tally)
    requires Sound(c, t)
    ensures Roots(t) <= c.Regional()
  {
    hide IsValidWord;
  }

  /** Two states of the walk: the roots are the same and nothing was queued, or there are more. */
  ghost predicate Advances(known: set<Word>, pending: seq<Word>, known': set<Word>, pending': seq<Word>) {
    known < known' || (known == known' && pending == pending')
  }

  /** Everything new is queued. */
  ghost predicate Queued(known0: set<Word>, pending0: seq<Word>, known: set<Word>, pending: seq<Word>) {
    && Advances(known0, pending0, known, pending)
    && (forall r :: r in pending0 ==> r in pending)
    && (forall r :: r in known ==> r in known0 || r in pending)
  }

  lemma QueuedOne(known0: set<Word>, pending0: seq<Word>, known: set<Word>, pending: seq<Word>, a: Word)
    requires Queued(known0, pending0, known, pending)
    ensures a !in known ==> Queued(known0, pending0, known + {a}, pending + [a])
  {
  }

  lemma QueuedNone(known: set<Word>, pending: seq<Word>)
    ensures Queued(known, pending, known, pending)
  {
  }

  method AddCallees(c: Capture, tables: set<int>, t0: Tally, pending0: seq<Word>, calls: set<int>)
    returns (t: Tally, known: set<Word>, pending: seq<Word>)
    requires c.Valid() && Sound(c, t0) && forall a :: a in calls ==> c.Region(a) && Callable(c.img, a)
    ensures Sound(c, t) && Grows(t0, t) && known == Roots(t)
    ensures Queued(Roots(t0), pending0, known, pending)
    ensures forall a: Word :: a in calls ==> a in known
    ensures forall a :: a in known ==> a in Roots(t0) || a as int in calls
  {
    hide Sound, Include, Grows, Callable, Roots, Queued;
    var order := Ascending(calls, c.img.load, c.Hi());
    AscendingMembers(calls, c.img.load, c.Hi());
    t, known, pending := t0, Roots(t0), pending0;
    GrowsRefl(t0);
    QueuedNone(known, pending);
    var k := 0;
    while k < |order|
      invariant 0 <= k <= |order|
      invariant Sound(c, t) && Grows(t0, t) && known == Roots(t)
      invariant Queued(Roots(t0), pending0, known, pending)
      invariant forall a: Word :: a in order[..k] ==> a in known
      invariant forall a :: a in known ==> a in Roots(t0) || a as int in calls
    {
      assert order[k] in order;
      assert order[..k + 1] == order[..k] + [order[k]];
      var a: Word := order[k];
      if a !in known {
        IncludeIsSound(c, tables, t, a, DirectJalTarget);
        CalleeBecomesRoot(c, tables, t, a);
        QueuedOne(Roots(t0), pending0, known, pending, a);
        var t' := Include(c, tables, t, a, DirectJalTarget);
        GrowsTrans(t0, t, t');
        t := t';
        if a in t.included {
          known := known + {a};
          pending := pending + [a];
        }
      }
      k := k + 1;
    }
    assert order[..k] == order;
  }

  // ---- what the walks found ----

  /** The direct calls of the walk from `e`, when `roots` were known. */
  function CallsOf(c: Capture, roots: set<Word>, e: Word): set<int> {
    DirectCalls(WindowOf(c, roots, e), OverlayWalk(WindowOf(c, roots, e)).expanded)
  }

  /** `walked` says, for each walked root, which roots were known then: what its walk called
      is a root by now. */
  ghost predicate ClosedWhenWalked(c: Capture, known: set<Word>, walked: map<Word, set<Word>>) {
    forall e :: e in walked ==> walked[e] <= known && forall a: Word :: a in CallsOf(c, walked[e], e) ==> a in known
  }

  ghost predicate FoundBy(c: Capture, walked: map<Word, set<Word>>, a: Word) {
    exists e :: e in walked && a in CallsOf(c, walked[e], e)
  }

  ghost predicate AllFound(c: Capture, roots: set<Word>, known: set<Word>, walked: map<Word, set<Word>>) {
    forall a :: a in known ==> a in roots || FoundBy(c, walked, a)
  }

  ghost predicate Extends(walked: map<Word, set<Word>>, walked': map<Word, set<Word>>) {
    forall e :: e in walked ==> e in walked' && walked'[e] == walked[e]
  }

  lemma FoundStays(c: Capture, walked: map<Word, set<Word>>, walked': map<Word, set<Word>>, a: Word)
    requires FoundBy(c, walked, a) && Extends(walked, walked')
    ensures FoundBy(c, walked', a)
  {
    hide CallsOf;
  }

  lemma ClosedGrows(c: Capture, known: set<Word>, walked: map<Word, set<Word>>, known': set<Word>)
    requires ClosedWhenWalked(c, known, walked) && known <= known'
    ensures ClosedWhenWalked(c, known', walked)
  {
    hide CallsOf;
  }

  lemma WalkedOne(c: Capture, known: set<Word>, walked: map<Word, set<Word>>, e: Word, known': set<Word>)
    requires ClosedWhenWalked(c, known, walked) && known <= known' && e !in walked
    requires forall a: Word :: a in CallsOf(c, known, e) ==> a in known'
    ensures ClosedWhenWalked(c, known', walked[e := known]) && Extends(walked, walked[e := known])
  {
    hide CallsOf;
  }

  lemma FoundOne(c: Capture, roots: set<Word>, known: set<Word>, walked: map<Word, set<Word>>, e: Word,
                 known': set<Word>)
    requires AllFound(c, roots, known, walked) && e !in walked
    requires forall a :: a in known' ==> a in known || a as int in CallsOf(c, known, e)
    ensures AllFound(c, roots, known', walked[e := known])
  {
    hide CallsOf, FoundBy;
    var walked' := walked[e := known];
    forall a | a in known' ensures a in roots || FoundBy(c, walked', a) {
      if a in known && a !in roots {
        FoundStays(c, walked, walked', a);
      } else if a !in known {
        FoundHere(c, walked', e, a);
      }
    }
  }

  lemma FoundHere(c: Capture, walked: map<Word, set<Word>>, e: Word, a: Word)
    requires e in walked && a as int in CallsOf(c, walked[e], e)
    ensures FoundBy(c, walked, a)
  {
    hide CallsOf;
  }

  lemma ExtendsTrans(w0: map<Word, set<Word>>, w1: map<Word, set<Word>>, w2: map<Word, set<Word>>)
    requires Extends(w0, w1) && Extends(w1, w2)
    ensures Extends(w0, w2)
  {
  }

  lemma ExtendsRefl(w: map<Word, set<Word>>)
    ensures Extends(w, w)
  {
  }

  lemma AllKnown(c: Capture, roots: set<Word>, walked: map<Word, set<Word>>)
    ensures AllFound(c, roots, roots, walked)
  {
  }

  /** The inner loop: until every root has been walked.  What each walk called, under the cap
      it had then, is a root, and nothing else has become one. */
  method WalkPending(c: Capture, tables: set<int>, t0: Tally, pending0: seq<Word>, processed0: set<Word>,
                     ghost walked0: map<Word, set<Word>>)
    returns (t: Tally, known: set<Word>, processed: set<Word>, ghost walked: map<Word, set<Word>>)
    requires c.Valid() && Sound(c, t0) && forall r :: r in Roots(t0) ==> r in processed0 || r in pending0
    requires walked0.Keys == processed0 && ClosedWhenWalked(c, Roots(t0), walked0)
    ensures Sound(c, t) && Grows(t0, t) && known == Roots(t) && known <= processed
    ensures walked.Keys == processed && ClosedWhenWalked(c, known, walked) && Extends(walked0, walked)
    ensures AllFound(c, Roots(t0), known, walked)
  {
    hide Sound, Grows, Callable, Roots, OverlayWalk, DirectCalls, CallsOf, ClosedWhenWalked, AllFound, Extends;
    t, known, processed, walked := t0, Roots(t0), processed0, walked0;
    var pending := pending0;
    GrowsRefl(t0);
    RootsInRegion(c, t0);
    ExtendsRefl(walked0);
    AllKnown(c, Roots(t0), walked0);
    while pending != []
      invariant Sound(c, t) && Grows(t0, t) && known == Roots(t) && known <= c.Regional()
      invariant forall r :: r in known ==> r in processed || r in pending
      invariant walked.Keys == processed && ClosedWhenWalked(c, known, walked) && Extends(walked0, walked)
      invariant AllFound(c, Roots(t0), known, walked)
      decreases c.Regional() - known, |pending|
    {
      var entry := pending[0];
      assert pending == [entry] + pending[1..];
      pending := pending[1..];
      if entry !in processed {
        processed := processed + {entry};
        var v := Window(c.img, c.size, entry, NextCut(known, entry, c.Hi()));
        var vs, calls, bs, ts := WalkOverlayFunction(v);
        CallsAre(c, known, entry);
        DirectCallsAreCallable(v, OverlayWalk(v).expanded);
        var t', known', pending' := AddCallees(c, tables, t, pending, calls);
        GrowsTrans(t0, t, t');
        GrowsRoots(t, t');
        RootsInRegion(c, t');
        WalkedOne(c, known, walked, entry, known');
        FoundOne(c, Roots(t0), known, walked, entry, known');
        ExtendsTrans(walked0, walked, walked[entry := known]);
        walked := walked[entry := known];
        t, known, pending := t', known', pending';
      }
    }
  }

  lemma CallsAre(c: Capture, known: set<Word>, e: Word)
    ensures var v := Window(c.img, c.size, e, NextCut(known, e, c.Hi()));
            CallsOf(c, known, e) == DirectCalls(v, OverlayWalk(v).expanded)
  {
    hide DirectCalls, OverlayWalk, NextCut;
  }

  // ---- orphans of the kernel window ----

  /** A dispatched interior with a valid word that no root's walk covers. */
  ghost predicate Orphan(c: Capture, t: Tally, a: Word) {
    && a in t.included && t.included[a] == DispatchInterior && IsValidWord(c.img.ReadWord(a))
    && !CoveredBy(c, Roots(t), a)
  }

  /** The lowest orphan, if there is one. */
  method LowestOrphan(c: Capture, t: Tally, known: set<Word>) returns (r: Option<Word>)
    requires c.Valid() && Sound(c, t) && known == Roots(t)
    ensures r == None ==> forall a :: !Orphan(c, t, a)
    ensures r.Some? ==> Orphan(c, t, r.value) && forall a :: Orphan(c, t, a) ==> r.value <= a
  {
    hide CoveredBy, Roots, IsValidWord;
    var covered, bs, ts := WalkAll(c, known);
    var orphans := set a | a in t.included && t.included[a] == DispatchInterior && IsValidWord(c.img.ReadWord(a))
      && a !in covered :: a as int;
    var order := Ascending(orphans, c.img.load, c.Hi());
    AscendingMembers(orphans, c.img.load, c.Hi());
    AscendingLeast(orphans, c.img.load, c.Hi());
    forall a: Word ensures a as int in order <==> Orphan(c, t, a) {
      if a in t.included { IncludedInRegion(c, t, a); }
    }
    r := None;
    if order != [] {
      assert order[0] in order;
      var lowest: Word := order[0];
      r := Some(lowest);
    }
  }

  lemma IncludedInRegion(c: Capture, t: Tally, a: Word)
    requires Sound(c, t) && a in t.included
    ensures c.Region(a)
  {
    hide IsValidWord;
  }

  lemma PromotionIsSound(c: Capture, t: Tally, a: Word)
    requires Sound(c, t) && c.KernelWindow() && Orphan(c, t, a)
    ensures var t' := t.(included := t.included[a := DispatchRoot]);
            Sound(c, t') && Grows(t, t') && Roots(t') == Roots(t) + {a} && a !in Roots(t)
  {
    hide CoveredBy, IsValidWord;
  }

  /** Both fixpoints: every root has been walked and what its walk called is a root, every new
      root was called or promoted, and in the kernel window no orphan is left.  Each promotion
      adds a root of the region, so it ends. */
  method FindRoots(c: Capture, tables: set<int>, t0: Tally)
    returns (t: Tally, known: set<Word>, ghost walked: map<Word, set<Word>>)
    requires c.Valid() && Sound(c, t0)
    ensures Sound(c, t) && Grows(t0, t) && known == Roots(t)
    ensures known <= walked.Keys && ClosedWhenWalked(c, known, walked)
    ensures forall a :: a in known ==> a in Roots(t0) || FoundBy(c, walked, a) || Promoted(t, a)
    ensures c.KernelWindow() ==> forall a :: !Orphan(c, t, a)
  {
    hide Sound, Grows, Orphan, Roots, ClosedWhenWalked, AllFound, Extends, FoundBy, Promoted, CallsOf;
    var processed: set<Word> := {};
    var pending := AscendingRoots(c, t0);
    assert ClosedWhenWalked(c, Roots(t0), map[]) by { NothingWalked(c, Roots(t0)); }
    t, known, processed, walked := WalkPending(c, tables, t0, pending, processed, map[]);
    RootsInRegion(c, t);
    FoundOrOld(c, Roots(t0), known, walked);
    var more := c.KernelWindow();
    while more
      invariant Sound(c, t) && Grows(t0, t) && known == Roots(t) && known <= processed && known <= c.Regional()
      invariant walked.Keys == processed && ClosedWhenWalked(c, known, walked)
      invariant forall a :: a in known ==> a in Roots(t0) || FoundBy(c, walked, a) || Promoted(t, a)
      invariant !more && c.KernelWindow() ==> forall a :: !Orphan(c, t, a)
      invariant more ==> c.KernelWindow()
      decreases more, c.Regional() - known
    {
      var a := LowestOrphan(c, t, known);
      if a == None {
        more := false;
      } else {
        PromotionIsSound(c, t, a.value);
        var t1 := t.(included := t.included[a.value := DispatchRoot]);
        ClosedGrows(c, known, walked, Roots(t1));
        var t2, known2, processed2, walked2 := WalkPending(c, tables, t1, [a.value], processed, walked);
        FoundOrOld(c, Roots(t1), known2, walked2);
        assert Promoted(t1, a.value) by { NowPromoted(t, a.value); }
        forall x | x in known2 ensures x in Roots(t0) || FoundBy(c, walked2, x) || Promoted(t2, x) {
          StillFound(c, Roots(t0), t, t1, t2, a.value, walked, walked2, x);
        }
        GrowsTrans(t, t1, t2);
        GrowsTrans(t0, t, t2);
        GrowsRoots(t1, t2);
        RootsInRegion(c, t2);
        t, known, processed, walked := t2, known2, processed2, walked2;
      }
    }
  }

  /** A dispatched address made a root of its own. */
  predicate Promoted(t: Tally, a: Word) {
    a in t.included && t.included[a] == DispatchRoot
  }

  lemma NowPromoted(t: Tally, a: Word)
    ensures Promoted(t.(included := t.included[a := DispatchRoot]), a)
  {
  }

  lemma NothingWalked(c: Capture, known: set<Word>)
    ensures ClosedWhenWalked(c, known, map[])
  {
  }

  lemma FoundOrOld(c: Capture, roots: set<Word>, known: set<Word>, walked: map<Word, set<Word>>)
    requires AllFound(c, roots, known, walked)
    ensures forall a :: a in known ==> a in roots || FoundBy(c, walked, a)
  {
    hide FoundBy;
  }

  lemma PromotedStays(t: Tally, t': Tally, a: Word)
    requires Grows(t, t') && Promoted(t, a)
    ensures Promoted(t', a)
  {
  }

  lemma StillFound(c: Capture, roots: set<Word>, t: Tally, t1: Tally, t2: Tally, p: Word,
                   walked: map<Word, set<Word>>, walked2: map<Word, set<Word>>, x: Word)
    requires Roots(t1) == Roots(t) + {p} && Promoted(t1, p) && Grows(t, t1) && Grows(t1, t2)
    requires x in Roots(t) ==> x in roots || FoundBy(c, walked, x) || Promoted(t, x)
    requires x in Roots(t1) || FoundBy(c, walked2, x)
    requires Extends(walked, walked2)
    ensures x in roots || FoundBy(c, walked2, x) || Promoted(t2, x)
  {
    hide FoundBy, Promoted, Extends, Grows, Roots;
    GrowsTrans(t, t1, t2);
    if x in Roots(t) {
      if FoundBy(c, walked, x) {
        FoundStays(c, walked, walked2, x);
      } else if Promoted(t, x) {
        PromotedStays(t, t2, x);
      }
    } else if x == p {
      PromotedStays(t1, t2, p);
    }
  }

  lemma GrowsRoots(t: Tally, t': Tally)
    requires Grows(t, t')
    ensures Roots(t) <= Roots(t')
  {
  }

  method AscendingRoots(c: Capture, t: Tally) returns (order: seq<Word>)
    requires Sound(c, t)
    ensures forall r :: r in order <==> r in Roots(t)
  {
    hide Roots, Sound;
    order := [];
    var todo := Roots(t);
    while todo != {}
      invariant todo <= Roots(t)
      invariant forall r :: r in order <==> r in Roots(t) && r !in todo
      decreases |todo|
    {
      var r :| r in todo;
      todo := todo - {r};
      order := order + [r];
    }
  }

  // ---- the classification ----

  /** Roots for a first look at jump tables: whatever has boundary evidence of its own. */
  function ProvisionalRoots(c: Capture): set<Word> {
    c.CallableSeeds() + (set a | a in c.pointers + c.declared && c.Region(a))
      + (set a | a in c.dispatched && c.Region(a) && Callable(c.img, a))
  }

  ghost predicate IsTables(c: Capture, tables: set<int>) {
    forall a :: a in tables <==> TableTargetBy(c, ProvisionalRoots(c), a)
  }

  /** Why a candidate is left out, once the roots are final. */
  ghost function Verdict(c: Capture, known: set<Word>, a: Word): Reason {
    if BranchTargetBy(c, known, a) || TableTargetBy(c, known, a)
      || TableTargetBy(c, ProvisionalRoots(c), a) then BranchTargetOnly
    else if a in c.executed || a in c.seeds then ObservedPcOnly
    else UnknownSeed
  }

  lemma VerdictIs(c: Capture, tables: set<int>, known: set<Word>, branches: set<int>, later: set<int>, a: Word)
    requires IsTables(c, tables)
    requires a in branches <==> BranchTargetBy(c, known, a)
    requires a in later <==> TableTargetBy(c, known, a)
    ensures Verdict(c, known, a)
            == if a in branches || a in later || a in tables then BranchTargetOnly
               else if a in c.executed || a in c.seeds then ObservedPcOnly else UnknownSeed
    ensures Fatal(Verdict(c, known, a))
  {
    hide BranchTargetBy, TableTargetBy, ProvisionalRoots;
  }

  method ExcludeRest(c: Capture, tables: set<int>, t0: Tally, known: set<Word>) returns (t: Tally)
    requires known == Roots(t0) && IsTables(c, tables)
    ensures t.included == t0.included
    ensures forall a :: a in c.Candidates() && a !in t.included ==>
            a in t.excluded && t.excluded[a] == Verdict(c, known, a)
  {
    hide BranchTargetBy, TableTargetBy, Roots, Verdict, IsTables;
    var vs, branches, later := WalkAll(c, known);
    t := t0;
    var rest := c.Candidates() - t.included.Keys;
    var todo := rest;
    while todo != {}
      invariant todo <= rest && t.included == t0.included
      invariant forall a :: a in rest && a !in todo ==> a in t.excluded && t.excluded[a] == Verdict(c, known, a)
      decreases |todo|
    {
      var a :| a in todo;
      todo := todo - {a};
      VerdictIs(c, tables, known, branches, later, a);
      var r := if a in branches || a in later || a in tables then BranchTargetOnly
               else if a in c.executed || a in c.seeds then ObservedPcOnly else UnknownSeed;
      t := t.(excluded := t.excluded[a := r]);
    }
  }

  /** classify_overlay_seeds. */
  method Classify(c: Capture) returns (t: Tally, known: set<Word>, ghost walked: map<Word, set<Word>>)
    requires c.Valid()
    ensures known == Roots(t)
    ensures forall a :: a in t.included ==> c.Region(a) && !Fatal(t.included[a])
    ensures forall a :: a in t.included && (t.included[a] == DispatchInterior || t.included[a] == DispatchRoot) ==>
            a in c.dispatched
    ensures c.KernelWindow() ==>
              forall a :: a in t.included && t.included[a] == DispatchInterior && IsValidWord(c.img.ReadWord(a)) ==>
                CoveredBy(c, known, a)
    ensures !c.KernelWindow() ==> forall a :: a in t.included ==> t.included[a] != DispatchRoot
    ensures forall a :: a in c.dispatched && c.Region(a) && !ImpossibleStart(c, a) ==> a in t.included
    ensures known <= walked.Keys && ClosedWhenWalked(c, known, walked)
    ensures forall a :: a in known ==>
              a in c.dispatched + c.pointers + c.declared + c.CallableSeeds() || FoundBy(c, walked, a)
    ensures forall a :: a in c.declared && c.Region(a) ==> a in known
    ensures forall a :: a in c.pointers && c.Region(a) && Callable(c.img, a) ==> a in known
    ensures forall a :: a in c.Candidates() && a !in t.included ==>
            a in t.excluded && t.excluded[a] == Verdict(c, known, a)
  {
    hide Grows, Callable, IsValidWord, CoveredBy, Roots, Verdict, TableTargetBy, ImpossibleStart, ClosedWhenWalked,
         FoundBy, CallsOf, Capture.CallableSeeds;
    var vs, bs, tables := WalkAll(c, ProvisionalRoots(c));
    var t0 := Tally(map[], map[]);
    NoRootsYet();
    var t1 := IncludeAll(c, tables, t0, c.dispatched, DispatchEntry);
    var t2 := IncludeAll(c, tables, t1, c.pointers, FunctionPointerTarget);
    var t3 := IncludeAll(c, tables, t2, c.declared, TomlDeclaredEntry);
    var t4 := t3;
    if c.seeds != {} && c.oldFormat {
      t4 := IncludeAll(c, tables, t3, c.CallableSeeds(), FunctionPointerTarget);
    }
    var t5;
    t5, known, walked := FindRoots(c, tables, t4);
    t := ExcludeRest(c, tables, t5, known);
    SameRoots(t5, t);
    GrowsTrans(t3, t4, t5) by { if t3 == t4 { GrowsRefl(t3); } }
    GrowsTrans(t2, t3, t5);
    GrowsTrans(t1, t2, t5);
    GrowsKeys(t1, t5);
    GrowsRoots(t2, t5);
    GrowsRoots(t3, t5);
    if c.KernelWindow() {
      forall a | a in t.included && t.included[a] == DispatchInterior && IsValidWord(c.img.ReadWord(a))
        ensures CoveredBy(c, known, a)
      {
        assert !Orphan(c, t5, a);
      }
    }
  }

  lemma NoRootsYet()
    ensures Roots(Tally(map[], map[])) == {}
  {
  }

  lemma SameRoots(t: Tally, t': Tally)
    requires t.included == t'.included
    ensures Roots(t) == Roots(t')
  {
  }
}
