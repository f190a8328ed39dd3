/** The generator itself, as the loops it is made of: generate_function,
    generate_alias_group and generate_all_functions. */
module Generator {
  import opened Words
  import opened ControlFlow
  import opened Emit
  import opened Runtime
  import opened Labels
  import opened Generate

  // ---- blocks in order ----

  lemma {:induction false} CallsFromNext(c: Context, live: set<int>, x: int)
    requires c.f.Valid() && Aligned(x) && c.f.WalkLo() <= x <= c.f.end
    ensures CallContinuations(c, live, x) == CallContinuations(c, live, NextFrom(c.img, c.f, x))
    decreases c.f.end - x
  {
    hide IsLeader, BlockAt, CallContinuation;
    if x < c.f.end && !IsLeader(c.img, c.f, x) {
      CallsFromNext(c, live, x + 4);
      assert [] + CallContinuations(c, live, x + 4) == CallContinuations(c, live, x + 4);
    }
  }

  lemma {:induction false} LeaderContsFromNext(c: Context, live: set<int>, entries: set<int>, x: int)
    requires c.f.Valid() && Aligned(x) && c.f.WalkLo() <= x <= c.f.end
    ensures LeaderContinuations(c, live, entries, x) == LeaderContinuations(c, live, entries, NextFrom(c.img, c.f, x))
    decreases c.f.end - x
  {
    hide IsLeader;
    if x < c.f.end && !IsLeader(c.img, c.f, x) {
      LeaderContsFromNext(c, live, entries, x + 4);
      assert [] + LeaderContinuations(c, live, entries, x + 4) == LeaderContinuations(c, live, entries, x + 4);
    }
  }

  /** The address of the `k`-th leader, or the end of the function. */
  function OrderAt(c: Context, k: nat): int {
    var order := Leaders(c.img, c.f);
    if k < |order| then order[k] else c.f.end
  }

  /** What the `k`-th block contributes, and where the next one starts. */
  lemma OrderStep(c: Context, live: set<int>, entries: set<int>, k: nat)
    requires c.f.Valid() && k < |Leaders(c.img, c.f)|
    ensures var a := OrderAt(c, k);
            var b := BlockAt(c.img, c.f, a);
            var next := OrderAt(c, k + 1);
            && IsLeader(c.img, c.f, a)
            && BodyFrom(c, live, a) == (if a in live then BlockCode(c, b) else []) + BodyFrom(c, live, next)
            && CallContinuations(c, live, a)
               == (if a in live then CallContinuation(b) else []) + CallContinuations(c, live, next)
            && LeaderContinuations(c, live, entries, a)
               == (if a in live && a !in entries then [a] else []) + LeaderContinuations(c, live, entries, next)
  {
    hide IsLeader, BlockAt, CallContinuation, BlockCode, OrderAt, NextFrom, Leaders, Function.Valid, Aligned;
    var a := OrderAt(c, k);
    OrderFacts(c, k);
    BodyFromNext(c, live, a + 4);
    CallsFromNext(c, live, a + 4);
    LeaderContsFromNext(c, live, entries, a + 4);
  }

  lemma OrderFacts(c: Context, k: nat)
    requires c.f.Valid() && k < |Leaders(c.img, c.f)|
    ensures var a := OrderAt(c, k);
            && IsLeader(c.img, c.f, a) && Aligned(a + 4) && c.f.WalkLo() <= a && a + 4 <= c.f.end
            && NextFrom(c.img, c.f, a + 4) == OrderAt(c, k + 1)
  {
    hide IsLeader, LeadersFrom, NextFrom;
    var a := OrderAt(c, k);
    assert a in Leaders(c.img, c.f);
    LeaderInRange(c.img, c.f, a);
    LeaderAligned(c.img, c.f, a);
    LeaderBelowEnd(c, a);
    BlockEndAt(c.img, c.f, k);
  }

  lemma LeaderBelowEnd(c: Context, a: int)
    requires c.f.Valid() && IsLeader(c.img, c.f, a)
    ensures c.f.WalkLo() <= a && a + 4 <= c.f.end
  {
    hide IsLeader, BlockEnd;
    BlockShape(c.img, c.f, a);
  }

  /** Blocks are translated in order, each call registering its return point. */
  method TranslateBlocks(c: Context, live: set<int>) returns (code: seq<Stmt>, calls: seq<int>)
    requires c.f.Valid()
    ensures code == BodyFrom(c, live, c.f.WalkLo()) && calls == CallContinuations(c, live, c.f.WalkLo())
  {
    hide IsLeader, BlockAt, CallContinuation, BlockCode, BodyFrom, CallContinuations, LeaderContinuations, Leaders;
    FirstInOrder(c);
    var order := Leaders(c.img, c.f);
    code, calls := [], [];
    var k := 0;
    while k < |order|
      invariant 0 <= k <= |order|
      invariant code + BodyFrom(c, live, OrderAt(c, k)) == BodyFrom(c, live, c.f.WalkLo())
      invariant calls + CallContinuations(c, live, OrderAt(c, k)) == CallContinuations(c, live, c.f.WalkLo())
    {
      OrderStep(c, live, {}, k);
      if order[k] in live {
        var b := BlockAt(c.img, c.f, order[k]);
        var more := TranslateBasicBlock(c, b);
        code := code + more;
        if (b.exit.kind == JumpLink || b.exit.kind == JumpLinkReg) && b.successors != [] {
          calls := calls + [b.exit.address + 8];
        }
        CallRegistered(b);
      }
      k := k + 1;
    }
    NothingAtEnd(c, live, {});
  }

  lemma CallRegistered(b: BasicBlock)
    ensures CallContinuation(b)
            == if (b.exit.kind == JumpLink || b.exit.kind == JumpLinkReg)
              && b.successors != [] then [b.exit.address + 8] else []
  {
  }

  lemma FirstInOrder(c: Context)
    requires c.f.Valid()
    ensures OrderAt(c, 0) == c.f.WalkLo()
  {
    hide IsLeader;
    LeadersUnfold(c.img, c.f, c.f.WalkLo());
    FirstLeader(c.img, c.f);
  }

  lemma NothingAtEnd(c: Context, live: set<int>, entries: set<int>)
    ensures BodyFrom(c, live, c.f.end) == [] && CallContinuations(c, live, c.f.end) == []
    ensures LeaderContinuations(c, live, entries, c.f.end) == []
  {
  }

  /** Every live leader that is no entry is registered, behind the return points. */
  method RegisterLeaders(c: Context, live: set<int>, entries: set<int>, calls: seq<int>) returns (conts: seq<int>)
    requires c.f.Valid()
    ensures conts == calls + LeaderContinuations(c, live, entries, c.f.WalkLo())
  {
    hide IsLeader, BlockAt, CallContinuation, BlockCode, BodyFrom, CallContinuations, LeaderContinuations, Leaders;
    FirstInOrder(c);
    var order := Leaders(c.img, c.f);
    conts := calls;
    var k := 0;
    while k < |order|
      invariant 0 <= k <= |order|
      invariant conts + LeaderContinuations(c, live, entries, OrderAt(c, k))
             == calls + LeaderContinuations(c, live, entries, c.f.WalkLo())
    {
      OrderStep(c, live, entries, k);
      if order[k] in live && order[k] !in entries {
        conts := conts + [order[k]];
      }
      k := k + 1;
    }
    NothingAtEnd(c, live, entries);
  }

  /** The cases of the entry switch, each continuation once. */
  method EntryCases(c: Context, conts: seq<int>, charged: bool) returns (cases: seq<Case>)
    ensures cases == ContinuationCases(c, conts, {}, charged)
  {
    hide MidBlockCharge, ContinuationCases;
    cases := [];
    var seen: set<int> := {};
    var k := 0;
    while k < |conts|
      invariant 0 <= k <= |conts|
      invariant cases + ContinuationCases(c, conts[k..], seen, charged) == ContinuationCases(c, conts, {}, charged)
    {
      CasesGoOn(c, conts, k, seen, charged);
      if conts[k] !in seen {
        cases := cases + [Case(Wrap(conts[k]), if charged then MidBlockCharge(c, conts[k]) else 0, conts[k])];
        seen := seen + {conts[k]};
      }
      k := k + 1;
    }
    NoCasesLeft(c, seen, charged);
    assert conts[k..] == [];
  }

  lemma CasesGoOn(c: Context, conts: seq<int>, k: nat, seen: set<int>, charged: bool)
    requires k < |conts|
    ensures ContinuationCases(c, conts[k..], seen, charged)
            == if conts[k] in seen then ContinuationCases(c, conts[k + 1..], seen, charged)
               else [Case(Wrap(conts[k]), if charged then MidBlockCharge(c, conts[k]) else 0, conts[k])]
                    + ContinuationCases(c, conts[k + 1..], seen + {conts[k]}, charged)
  {
    hide MidBlockCharge;
    assert conts[k..][0] == conts[k] && conts[k..][1..] == conts[k + 1..];
  }

  lemma NoCasesLeft(c: Context, seen: set<int>, charged: bool)
    ensures ContinuationCases(c, [], seen, charged) == []
  {
  }

  // ---- one function, one group ----

  method GenerateFunction(c: Context, overlay: bool) returns (text: seq<Stmt>, conts: seq<int>)
    requires c.f.Valid()
    ensures text == FunctionText(c, overlay)
    ensures conts == Continuations(c, AllBlocks(c), {c.f.start as int})
  {
    hide BodyFrom, CallContinuations, LeaderContinuations, ContinuationCases, NeedsFallThrough, LastLeader, BlockAt,
         AllBlocks;
    var live := AllBlocks(c);
    var body, calls := TranslateBlocks(c, live);
    conts := RegisterLeaders(c, live, {c.f.start as int}, calls);
    text := [];
    if conts != [] {
      var cases := EntryCases(c, conts, true);
      text := text + [EntrySwitch(cases, overlay, c.f.start)];
    }
    text := text + body + FunctionTail(c);
  }

  method GenerateAliasGroup(c: Context, entries: seq<Word>) returns (text: seq<Stmt>, conts: seq<int>)
    requires c.f.Valid()
    ensures text == GroupText(c, entries, LiveSet(c, entries))
    ensures conts == Continuations(c, LiveSet(c, entries), StartsOf(entries))
  {
    hide BodyFrom, CallContinuations, LeaderContinuations, ContinuationCases, NeedsFallThrough, LastLeader, BlockAt,
         LiveSet;
    var live := LiveBlocks(c, entries);
    var body, calls := TranslateBlocks(c, live);
    conts := RegisterLeaders(c, live, StartsOf(entries), calls);
    text := [];
    if conts != [] {
      var cases := EntryCases(c, conts, false);
      text := text + [EntrySwitch(cases, false, c.f.start)];
    }
    text := text + [EntryGoto(entries)] + body + GroupTail(c, live);
  }

  // ---- everything ----

  method RegisterOwners(before: map<Word, Word>, conts: seq<int>, owner: Word) returns (m: map<Word, Word>)
    ensures m == AddOwners(before, conts, owner)
  {
    m := before;
    var k := 0;
    while k < |conts|
      invariant 0 <= k <= |conts|
      invariant AddOwners(m, conts[k..], owner) == AddOwners(before, conts, owner)
    {
      assert conts[k..][0] == conts[k] && conts[k..][1..] == conts[k + 1..];
      m := m[Wrap(conts[k]) := owner];
      k := k + 1;
    }
  }

  /** The hosts met among the first `n` functions. */
  function HostsUpTo(b: Build, n: nat): set<Word>
    requires n <= |b.functions|
  {
    if n == 0 then {}
    else if b.functions[n - 1].IsAlias() then HostsUpTo(b, n - 1) + {b.functions[n - 1].aliasWalkLo}
    else HostsUpTo(b, n - 1)
  }

  lemma {:induction false} HostsMet(b: Build, n: nat, host: Word)
    requires n <= |b.functions| && host != 0
    ensures host in HostsUpTo(b, n) <==> exists j :: 0 <= j < n && b.functions[j].aliasWalkLo == host
  {
    if n > 0 {
      HostsMet(b, n - 1, host);
    }
  }

  /** generate_all_functions: one pass over the functions, each group at its first alias. */
  method GenerateAllFunctions(b: Build) returns (p: Program)
    requires b.Valid()
    ensures p == ProgramOf(b)
  {
    hide FunctionText, GroupText, Continuations, LiveSet, AllBlocks, AddOwners, Build.DistinctStarts,
         Build.SiblingsAgree, Build.GroupFrom;
    var text: map<CodeId, seq<Stmt>> := map[];
    var owner: map<Word, Word> := map[];
    var emitted: set<Word> := {};
    var n := 0;
    while n < |b.functions|
      invariant 0 <= n <= |b.functions|
      invariant text == TextUpTo(b, n) && owner == OwnerUpTo(b, n) && emitted == HostsUpTo(b, n)
    {
      var f := b.functions[n];
      var c := b.ContextOf(f);
      if f.IsAlias() {
        HostsMet(b, n, f.aliasWalkLo);
        if f.aliasWalkLo !in emitted {
          assert b.Translated(n);
          var entries := b.Group(f.aliasWalkLo);
          var body, conts := GenerateAliasGroup(c, entries);
          owner := RegisterOwners(owner, conts, f.start);
          text := text[Body(f.aliasWalkLo) := body];
        }
        emitted := emitted + {f.aliasWalkLo};
        text := text[Func(f.start) := WrapperText(f.aliasWalkLo, f.start)];
      } else if f.isData {
        text := text[Func(f.start) := [UnknownDispatch]];
      } else {
        assert b.Translated(n);
        StartsOfStart(f.start);
        var body, conts := GenerateFunction(c, b.overlay);
        owner := RegisterOwners(owner, conts, f.start);
        text := text[Func(f.start) := if f.start in b.stubs then [UnknownDispatch] else body];
      }
      n := n + 1;
    }
    p := Program(text, owner);
  }

  lemma StartsOfStart(s: Word)
    ensures StartsOf([s]) == {s as int}
  {
    assert s in [s];
    assert forall e :: e in [s] ==> e == s;
  }

  // ---- entries in the middle of a block ----

  /** `a` lies inside the block at `b`, behind its first instruction. */
  predicate Inside(img: Image, f: Function, b: int, a: int) {
    b < a <= BlockEnd(img, f, b) && Aligned(a - b)
  }

  /** partial_block_cycle_count: searching the blocks for the one an address is inside of. */
  method PartialBlockCycleCount(img: Image, f: Function, a: int) returns (n: nat)
    requires f.Valid()
    ensures n == PartialCount(img, f, a)
  {
    hide IsLeader, BlockEnd, BlockStart, Inside, Leaders;
    if IsLeader(img, f, a) {
      return 0;
    }
    var order := Leaders(img, f);
    var k := 0;
    while k < |order|
      invariant 0 <= k <= |order|
      invariant forall j :: 0 <= j < k ==> !Inside(img, f, order[j], a)
    {
      if Inside(img, f, order[k], a) {
        InsideCount(img, f, order[k], a);
        return (BlockEnd(img, f, order[k]) - a) / 4 + 1;
      }
      k := k + 1;
    }
    OutsideCount(img, f, a);
    return 0;
  }

  lemma InsideCount(img: Image, f: Function, b: int, a: int)
    requires f.Valid() && b in Leaders(img, f) && Inside(img, f, b, a) && !IsLeader(img, f, a)
    ensures (BlockEnd(img, f, b) - a) / 4 + 1 >= 0 && PartialCount(img, f, a) == (BlockEnd(img, f, b) - a) / 4 + 1
  {
    hide IsLeader, BlockEnd, BlockStart, Leaders;
    LeaderInRange(img, f, b);
    InnerAddress(img, f, b, a);
  }

  lemma OutsideCount(img: Image, f: Function, a: int)
    requires f.Valid() && !IsLeader(img, f, a)
    requires forall j :: 0 <= j < |Leaders(img, f)| ==> !Inside(img, f, Leaders(img, f)[j], a)
    ensures PartialCount(img, f, a) == 0
  {
    hide IsLeader, BlockEnd, BlockStart, LeadersFrom;
    if f.InRange(a) && Aligned(a) {
      var b := BlockStart(img, f, a);
      BlockStartIsLast(img, f, a);
      LeaderAligned(img, f, b);
      LeadersFromMembers(img, f, f.WalkLo());
      assert b in Leaders(img, f);
      var j :| 0 <= j < |Leaders(img, f)| && Leaders(img, f)[j] == b;
      assert !Inside(img, f, b, a);
    }
  }

  lemma InnerAddress(img: Image, f: Function, b: int, a: int)
    requires f.Valid() && IsLeader(img, f, b) && b < a <= BlockEnd(img, f, b) && Aligned(a - b)
    ensures f.InRange(a) && Aligned(a) && BlockStart(img, f, a) == b
  {
    hide IsLeader, BlockEnd, BlockStart;
    BlockShape(img, f, b);
    BlocksTile(img, f, a, b);
  }
}
