/** All emitted functions of a unit of translation and the continuation owners: what
    generate_all_functions leaves behind for the dispatch table. */
module Generate {
  import opened Words
  import opened ControlFlow
  import opened Emit
  import opened Runtime
  import opened Labels

  /** What the generator works from: the image, the functions in order, those replaced by a
      stub because most of their words have no translation, and the two modes. */
  datatype Build = Build(img: Image, functions: seq<Function>, stubs: set<Word>, blockMode: bool, overlay: bool) {
    function Known(): set<int> {
      set f | f in functions :: f.start as int
    }

    function ContextOf(f: Function): Context {
      Context(img, f, Known(), blockMode)
    }

    /** Emitted as a call that reports an unknown dispatch. */
    predicate Stubbed(f: Function) {
      !f.IsAlias() && (f.isData || f.start in stubs)
    }

    /** The aliases of a host, in the order of the functions. */
    function GroupFrom(host: Word, i: nat): seq<Word>
      requires i <= |functions|
      decreases |functions| - i
    {
      if i == |functions| then []
      else (if functions[i].aliasWalkLo == host then [functions[i].start] else []) + GroupFrom(host, i + 1)
    }

    function Group(host: Word): seq<Word> {
      GroupFrom(host, 0)
    }

    /** The first alias of its host, where the shared body is emitted. */
    predicate FirstOfGroup(i: nat)
      requires i < |functions|
    {
      functions[i].IsAlias() && forall j :: 0 <= j < i ==> functions[j].aliasWalkLo != functions[i].aliasWalkLo
    }

    /** Blocks are translated for this function: it is no data section, and of its group
        the first. */
    predicate Translated(i: nat) {
      i < |functions| && if functions[i].IsAlias() then FirstOfGroup(i) else !functions[i].isData
    }

    /** Its blocks are in the output. */
    predicate IsUnit(i: nat) {
      Translated(i) && !Stubbed(functions[i])
    }

    ghost predicate DistinctStarts() {
      forall i, j :: 0 <= i < j < |functions| ==> functions[i].start != functions[j].start
    }

    /** Every alias knows all aliases of its host, and they end together. */
    ghost predicate SiblingsAgree() {
      forall f, g :: f in functions && g in functions && f.IsAlias() && f.aliasWalkLo == g.aliasWalkLo ==>
        f.end == g.end && g.start in f.aliasEntries && f.InRange(g.start)
    }

    ghost predicate Valid() {
      && DistinctStarts() && SiblingsAgree()
      && forall i: nat :: Translated(i) ==> functions[i].Valid()
    }
  }

  // ---- one translated function or group ----

  function UnitContext(b: Build, i: nat): Context
    requires i < |b.functions|
  {
    b.ContextOf(b.functions[i])
  }

  /** The entries a unit is entered at with `cpu->pc` clear. */
  function UnitEntries(b: Build, i: nat): seq<Word>
    requires i < |b.functions|
  {
    var f := b.functions[i];
    if f.IsAlias() then b.Group(f.aliasWalkLo) else [f.start]
  }

  /** All blocks of a function, the reachable ones of a group. */
  ghost function UnitLive(b: Build, i: nat): set<int>
    requires i < |b.functions|
  {
    var c := UnitContext(b, i);
    if b.functions[i].IsAlias() then LiveSet(c, UnitEntries(b, i)) else AllBlocks(c)
  }

  function StartsOf(entries: seq<Word>): set<int> {
    set e | e in entries :: e as int
  }

  ghost function UnitContinuations(b: Build, i: nat): seq<int>
    requires i < |b.functions|
  {
    Continuations(UnitContext(b, i), UnitLive(b, i), StartsOf(UnitEntries(b, i)))
  }

  ghost function UnitText(b: Build, i: nat): seq<Stmt>
    requires i < |b.functions|
  {
    var f := b.functions[i];
    if f.IsAlias() then GroupText(UnitContext(b, i), UnitEntries(b, i), UnitLive(b, i))
    else FunctionText(UnitContext(b, i), b.overlay)
  }

  function UnitId(b: Build, i: nat): CodeId
    requires i < |b.functions|
  {
    var f := b.functions[i];
    if f.IsAlias() then Body(f.aliasWalkLo) else Func(f.start)
  }

  // ---- the whole program ----

  ghost function TextUpTo(b: Build, n: nat): map<CodeId, seq<Stmt>>
    requires n <= |b.functions|
  {
    if n == 0 then map[]
    else
      var before := TextUpTo(b, n - 1);
      var f := b.functions[n - 1];
      var bodies := if b.IsUnit(n - 1) then before[UnitId(b, n - 1) := UnitText(b, n - 1)] else before;
      if f.IsAlias() then bodies[Func(f.start) := WrapperText(f.aliasWalkLo, f.start)]
      else if b.Stubbed(f) then bodies[Func(f.start) := [UnknownDispatch]]
      else bodies
  }

  function AddOwners(m: map<Word, Word>, conts: seq<int>, owner: Word): map<Word, Word>
    decreases |conts|
  {
    if conts == [] then m else AddOwners(m[Wrap(conts[0]) := owner], conts[1..], owner)
  }

  /** Later writers win; what a stubbed function registered stays. */
  ghost function OwnerUpTo(b: Build, n: nat): map<Word, Word>
    requires n <= |b.functions|
  {
    if n == 0 then map[]
    else
      var before := OwnerUpTo(b, n - 1);
      if b.Translated(n - 1) then AddOwners(before, UnitContinuations(b, n - 1), OwnerOf(b, n - 1)) else before
  }

  /** The function the dispatcher calls for a continuation of the unit. */
  function OwnerOf(b: Build, i: nat): Word
    requires i < |b.functions|
  {
    b.functions[i].start
  }

  ghost function ProgramOf(b: Build): Program {
    Program(TextUpTo(b, |b.functions|), OwnerUpTo(b, |b.functions|))
  }

  // ---- what the text map holds ----

  lemma UnitIdsDiffer(b: Build, i: nat, j: nat)
    requires i < |b.functions| && j < |b.functions| && i != j && b.DistinctStarts() && b.IsUnit(i)
    ensures b.IsUnit(j) ==> UnitId(b, i) != UnitId(b, j)
    ensures UnitId(b, i) != Func(b.functions[j].start)
  {
  }

  lemma UnitIdPlain(b: Build, i: nat)
    requires i < |b.functions|
    ensures b.functions[i].IsAlias() ==> UnitId(b, i) != Func(b.functions[i].start)
    ensures b.IsUnit(i) ==> b.functions[i].IsAlias() || !b.Stubbed(b.functions[i])
  {
  }

  lemma {:induction false} UnitTextUpTo(b: Build, n: nat, i: nat)
    requires i < n <= |b.functions| && b.DistinctStarts() && b.IsUnit(i)
    ensures UnitId(b, i) in TextUpTo(b, n) && TextUpTo(b, n)[UnitId(b, i)] == UnitText(b, i)
  {
    hide UnitText, UnitId, Build.DistinctStarts, Build.IsUnit, Build.Stubbed;
    if i == n - 1 {
      UnitIdPlain(b, i);
    } else {
      UnitTextUpTo(b, n - 1, i);
      UnitIdsDiffer(b, i, n - 1);
    }
  }

  /** A function outside the units is a wrapper or a stub. */
  function EntryText(b: Build, i: nat): seq<Stmt>
    requires i < |b.functions|
  {
    var f := b.functions[i];
    if f.IsAlias() then WrapperText(f.aliasWalkLo, f.start) else [UnknownDispatch]
  }

  lemma {:induction false} EntryTextUpTo(b: Build, n: nat, i: nat)
    requires i < n <= |b.functions| && b.DistinctStarts() && (b.functions[i].IsAlias() || b.Stubbed(b.functions[i]))
    ensures Func(b.functions[i].start) in TextUpTo(b, n)
            && TextUpTo(b, n)[Func(b.functions[i].start)] == EntryText(b, i)
  {
    hide UnitText, UnitId, Build.IsUnit, Build.Stubbed;
    if i < n - 1 {
      EntryTextUpTo(b, n - 1, i);
      if b.IsUnit(n - 1) { UnitIdsDiffer(b, n - 1, i); }
    }
  }

  /** What an identifier in the program stands for. */
  predicate Names(b: Build, id: CodeId, i: nat) {
    && i < |b.functions|
    && (id == Func(b.functions[i].start) || (b.IsUnit(i) && id == UnitId(b, i)))
  }

  lemma {:induction false} TextMember(b: Build, n: nat, id: CodeId) returns (i: nat)
    requires n <= |b.functions| && id in TextUpTo(b, n)
    ensures Names(b, id, i)
  {
    hide UnitText, UnitId, Build.IsUnit, Build.Stubbed;
    if id == Func(b.functions[n - 1].start) || (b.IsUnit(n - 1) && id == UnitId(b, n - 1)) {
      i := n - 1;
    } else {
      i := TextMember(b, n - 1, id);
    }
  }

  /** Every function can be called by its start. */
  lemma EveryStartIsCallable(b: Build, i: nat)
    requires b.DistinctStarts() && i < |b.functions|
    ensures Func(b.functions[i].start) in ProgramOf(b).text
  {
    hide UnitText, Build.DistinctStarts;
    if b.functions[i].IsAlias() || b.Stubbed(b.functions[i]) {
      EntryTextUpTo(b, |b.functions|, i);
    } else {
      UnitTextUpTo(b, |b.functions|, i);
    }
  }

  // ---- what the owner map holds ----

  lemma {:induction false} AddOwnersMembers(m: map<Word, Word>, conts: seq<int>, owner: Word, k: Word)
    requires forall x :: x in conts ==> 0 <= x < WORD_LIMIT
    ensures k in AddOwners(m, conts, owner) <==> k in m || k as int in conts
    ensures k as int in conts ==> AddOwners(m, conts, owner)[k] == owner
    ensures k as int !in conts && k in m ==> AddOwners(m, conts, owner)[k] == m[k]
    decreases |conts|
  {
    if conts != [] {
      assert forall x :: x in conts <==> x == conts[0] || x in conts[1..];
      assert conts[0] in conts;
      AddOwnersMembers(m[Wrap(conts[0]) := owner], conts[1..], owner, k);
      if k as int !in conts[1..] && k == conts[0] {
        AddOwnersKeep(m[Wrap(conts[0]) := owner], conts[1..], owner, k);
      }
    }
  }

  lemma {:induction false} AddOwnersKeep(m: map<Word, Word>, conts: seq<int>, owner: Word, k: Word)
    requires k in m && m[k] == owner
    ensures k in AddOwners(m, conts, owner) && AddOwners(m, conts, owner)[k] == owner
    decreases |conts|
  {
    if conts != [] {
      AddOwnersKeep(m[Wrap(conts[0]) := owner], conts[1..], owner, k);
    }
  }

  /** Continuations are leaders of live blocks, so they fit a word. */
  lemma {:induction false} LeaderContinuationsMembers(c: Context, live: set<int>, entries: set<int>, x: int)
    requires c.f.Valid() && Aligned(x) && c.f.WalkLo() <= x
    ensures forall a :: a in LeaderContinuations(c, live, entries, x) <==>
              x <= a && IsLeader(c.img, c.f, a) && a in live && a !in entries
    decreases c.f.end - x
  {
    hide IsLeader;
    if x < c.f.end {
      LeaderContinuationsMembers(c, live, entries, x + 4);
    }
    forall a | x <= a && IsLeader(c.img, c.f, a) ensures a < c.f.end && (a == x || x + 4 <= a) {
      LeaderBound(c.img, c.f, a);
      LeaderAligned(c.img, c.f, a);
    }
  }

  lemma CallContinuationIsLive(c: Context, live: set<int>, a: int, k: int)
    requires c.f.Valid() && IsLeader(c.img, c.f, a) && a in live && ClosedUnderEdges(c, live)
    requires k in CallContinuation(BlockAt(c.img, c.f, a))
    ensures IsLeader(c.img, c.f, k) && k in live
  {
    hide IsLeader, TableTargets, ExtraLabel, ContainingBlock, BlockEnd, ExitOf, ClosedUnderEdges;
    var b := BlockAt(c.img, c.f, a);
    KeepTwo(c.img, c.f, 0, b.exit.address + 8);
    SuccessorsExact(c.img, c.f, a, k);
    assert Edge(c, a, k);
    EdgeStays(c, live, a, k);
  }

  lemma EdgeStays(c: Context, live: set<int>, a: int, s: int)
    requires ClosedUnderEdges(c, live) && a in live && Edge(c, a, s)
    ensures s in live
  {
    hide Edge;
  }

  lemma {:induction false} CallContinuationsMembers(c: Context, live: set<int>, x: int, k: int)
    requires c.f.Valid() && ClosedUnderEdges(c, live) && k in CallContinuations(c, live, x)
    ensures IsLeader(c.img, c.f, k) && k in live
    decreases c.f.end - x
  {
    hide IsLeader, CallContinuation, BlockAt, ClosedUnderEdges;
    if IsLeader(c.img, c.f, x) && x in live && k in CallContinuation(BlockAt(c.img, c.f, x)) {
      CallContinuationIsLive(c, live, x, k);
    } else {
      CallContinuationsMembers(c, live, x + 4, k);
    }
  }

  /** Every registered continuation is the leader of an emitted block; every such leader that
      is not an entry is registered. */
  lemma ContinuationsAreLeaders(c: Context, live: set<int>, entries: set<int>, k: int)
    requires c.f.Valid() && ClosedUnderEdges(c, live)
    ensures k in Continuations(c, live, entries) ==> IsLeader(c.img, c.f, k) && k in live && 0 <= k < WORD_LIMIT
    ensures IsLeader(c.img, c.f, k) && k in live && k !in entries ==> k in Continuations(c, live, entries)
  {
    hide IsLeader, ClosedUnderEdges, LeaderContinuations, CallContinuations;
    var lo := c.f.WalkLo();
    LeaderContinuationsMembers(c, live, entries, lo);
    if k in CallContinuations(c, live, lo) {
      CallContinuationsMembers(c, live, lo, k);
    }
    if IsLeader(c.img, c.f, k) {
      LeaderBound(c.img, c.f, k);
    }
  }

  // ---- what the units are like ----

  lemma AllBlocksClosed(c: Context)
    requires c.f.Valid()
    ensures ClosedUnderEdges(c, AllBlocks(c))
    ensures forall a :: a in AllBlocks(c) <==> IsLeader(c.img, c.f, a)
  {
    hide IsLeader, Edge;
    forall a | IsLeader(c.img, c.f, a) ensures a in AllBlocks(c) {
      LeaderBound(c.img, c.f, a);
    }
    forall x, s {:trigger Edge(c, x, s)} | x in AllBlocks(c) && Edge(c, x, s) ensures s in AllBlocks(c) {
      EdgeIsLeader(c, x, s);
      LeaderBound(c.img, c.f, s);
    }
  }

  lemma LiveSetClosed(c: Context, entries: seq<Word>)
    requires c.f.Valid()
    ensures ClosedUnderEdges(c, LiveSet(c, entries)) && HoldsEntries(c, entries, LiveSet(c, entries))
    ensures forall a :: a in LiveSet(c, entries) ==> IsLeader(c.img, c.f, a)
  {
    hide IsLeader, Edge, ContainingBlock;
    var live := LiveSet(c, entries);
    forall x, s {:trigger Edge(c, x, s)} | x in live && Edge(c, x, s) ensures s in live {
      EdgeIsLeader(c, x, s);
      LeaderBound(c.img, c.f, s);
    }
    forall e | e in entries && ContainingBlock(c, e).Some? ensures ContainingBlock(c, e).value in live {
      var a := ContainingBlock(c, e).value;
      ContainingIsLeader(c, e);
      LeaderBound(c.img, c.f, a);
      forall t: set<int> | ClosedUnderEdges(c, t) && HoldsEntries(c, entries, t) ensures a in t {
        EntryHeld(c, entries, t, e);
      }
    }
  }

  lemma EntryHeld(c: Context, entries: seq<Word>, t: set<int>, e: Word)
    requires HoldsEntries(c, entries, t) && e in entries && ContainingBlock(c, e).Some?
    ensures ContainingBlock(c, e).value in t
  {
    hide ContainingBlock;
  }

  /** The emitted blocks of a unit are leaders, closed under edges. */
  lemma UnitIsClosed(b: Build, i: nat)
    requires b.Valid() && b.Translated(i)
    ensures UnitContext(b, i).f == b.functions[i] && b.functions[i].Valid()
    ensures ClosedUnderEdges(UnitContext(b, i), UnitLive(b, i))
    ensures forall a :: a in UnitLive(b, i) ==> IsLeader(b.img, b.functions[i], a)
  {
    hide IsLeader, ClosedUnderEdges, AllBlocks, LiveSet, Build.DistinctStarts, Build.SiblingsAgree;
    AllBlocksClosed(UnitContext(b, i));
    LiveSetClosed(UnitContext(b, i), UnitEntries(b, i));
  }

  lemma {:induction false} GroupMember(b: Build, host: Word, i: nat, e: Word) returns (j: nat)
    requires i <= |b.functions| && e in b.GroupFrom(host, i)
    ensures j < |b.functions| && b.functions[j].aliasWalkLo == host && b.functions[j].start == e
    decreases |b.functions| - i
  {
    if b.functions[i].aliasWalkLo == host && b.functions[i].start == e {
      j := i;
    } else {
      j := GroupMember(b, host, i + 1, e);
    }
  }

  lemma {:induction false} GroupHolds(b: Build, i: nat, j: nat)
    requires i <= j < |b.functions|
    ensures b.functions[j].start in b.GroupFrom(b.functions[j].aliasWalkLo, i)
    decreases j - i
  {
    if i < j {
      GroupHolds(b, i + 1, j);
    }
  }

  /** A unit's entries are blocks, and emitted. */
  lemma UnitEntryIsLive(b: Build, i: nat, e: Word)
    requires b.Valid() && b.Translated(i) && e in UnitEntries(b, i)
    ensures IsLeader(b.img, b.functions[i], e) && e in UnitLive(b, i)
  {
    hide IsLeader, Build.DistinctStarts, AllBlocks, LiveSet, ContainingBlock, ClosedUnderEdges;
    var f := b.functions[i];
    var c := UnitContext(b, i);
    if f.IsAlias() {
      var j := GroupMember(b, f.aliasWalkLo, 0, e);
      assert b.functions[j] in b.functions && f in b.functions;
      AliasEntryIsLeader(b.img, f, e);
      LiveSetClosed(c, UnitEntries(b, i));
      LeaderContainsItself(c, e);
    } else {
      FirstLeader(b.img, f);
      AllBlocksClosed(c);
    }
  }

  lemma AliasEntryIsLeader(img: Image, f: Function, e: Word)
    requires f.IsAlias() && e in f.aliasEntries && f.InRange(e)
    ensures IsLeader(img, f, e)
  {
  }

  lemma LeaderContainsItself(c: Context, a: int)
    requires c.f.Valid() && IsLeader(c.img, c.f, a)
    ensures ContainingBlock(c, a) == Some(a)
  {
    hide IsLeader, BlockEnd;
    LeaderBound(c.img, c.f, a);
    LeaderAligned(c.img, c.f, a);
    BlockShape(c.img, c.f, a);
  }

  // ---- routing ----

  /** Every owner in the map has the continuation among those of the unit it names. */
  lemma {:induction false} OwnerRegistered(b: Build, n: nat, k: Word) returns (i: nat)
    requires b.Valid() && n <= |b.functions| && k in OwnerUpTo(b, n)
    ensures i < n && b.Translated(i) && OwnerUpTo(b, n)[k] == OwnerOf(b, i) && k as int in UnitContinuations(b, i)
  {
    hide Build.Valid, UnitContinuations, Build.Translated, OwnerOf;
    if b.Translated(n - 1) {
      ContinuationsFit(b, n - 1);
      AddOwnersMembers(OwnerUpTo(b, n - 1), UnitContinuations(b, n - 1), OwnerOf(b, n - 1), k);
      if k as int in UnitContinuations(b, n - 1) {
        i := n - 1;
        return;
      }
    }
    i := OwnerRegistered(b, n - 1, k);
  }

  lemma ContinuationsFit(b: Build, i: nat)
    requires b.Valid() && b.Translated(i)
    ensures forall x :: x in UnitContinuations(b, i) ==> 0 <= x < WORD_LIMIT
  {
    hide Continuations, ClosedUnderEdges, UnitLive, IsLeader, Build.Valid;
    UnitIsClosed(b, i);
    forall x | x in UnitContinuations(b, i) ensures 0 <= x < WORD_LIMIT {
      ContinuationsAreLeaders(UnitContext(b, i), UnitLive(b, i), StartsOf(UnitEntries(b, i)), x);
    }
  }

  /** Every continuation of a translated unit has an owner. */
  lemma {:induction false} ContinuationHasOwner(b: Build, n: nat, i: nat, k: Word)
    requires b.Valid() && i < n <= |b.functions| && b.Translated(i) && k as int in UnitContinuations(b, i)
    ensures k in OwnerUpTo(b, n)
  {
    hide Build.Valid, UnitContinuations, Build.Translated, OwnerOf;
    if b.Translated(n - 1) {
      ContinuationsFit(b, n - 1);
      AddOwnersMembers(OwnerUpTo(b, n - 1), UnitContinuations(b, n - 1), OwnerOf(b, n - 1), k);
    }
    if i < n - 1 {
      ContinuationHasOwner(b, n - 1, i, k);
    }
  }
}
