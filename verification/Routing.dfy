/** Entering an emitted function: from its top, at an alias entry, or at a continuation the
    dispatcher hands to it; and what overlay mode does with a foreign address. */
module Routing {
  import opened Words
  import opened Isa
  import opened ControlFlow
  import opened JumpTables
  import opened Emit
  import opened Runtime
  import opened Labels
  import opened Reference
  import opened Preserve
  import opened Exits
  import opened BlockRun
  import opened Generate
  import Translate

  // ---- the parts of a unit's text ----

  ghost function UnitEntry(b: Build, i: nat): seq<Stmt>
    requires i < |b.functions|
  {
    var c := UnitContext(b, i);
    if b.functions[i].IsAlias()
    then EntryCode(c, UnitContinuations(b, i), false, false) + [EntryGoto(UnitEntries(b, i))]
    else EntryCode(c, UnitContinuations(b, i), true, b.overlay)
  }

  ghost function UnitTail(b: Build, i: nat): seq<Stmt>
    requires i < |b.functions|
  {
    if b.functions[i].IsAlias() then GroupTail(UnitContext(b, i), UnitLive(b, i)) else FunctionTail(UnitContext(b, i))
  }

  ghost function UnitBody(b: Build, i: nat): seq<Stmt>
    requires i < |b.functions|
  {
    BodyFrom(UnitContext(b, i), UnitLive(b, i), b.functions[i].WalkLo())
  }

  lemma UnitParts(b: Build, i: nat)
    requires i < |b.functions|
    ensures TextAround(UnitText(b, i), UnitContext(b, i), UnitLive(b, i), UnitEntry(b, i), UnitTail(b, i))
    ensures UnitText(b, i) == UnitEntry(b, i) + UnitBody(b, i) + UnitTail(b, i)
  {
    hide BodyFrom, Continuations, ContinuationCases, AllBlocks, LiveSet, LastLeader, NeedsFallThrough, BlockAt;
    StartsOfOne(b.functions[i].start);
  }

  lemma StartsOfOne(s: Word)
    ensures StartsOf([s]) == {s as int}
  {
    assert s in [s];
    assert forall e :: e in [s] ==> e == s;
  }

  // ---- labels ----

  /** A live label of a unit has been placed. */
  lemma LiveIsPlaced(c: Context, live: set<int>, t: int)
    requires c.f.Valid() && LabelsEmitted(c) && LiveLabel(c, live, t)
    ensures LabelPlaced(c, BlockAt(c.img, c.f, HomeOf(c, t)), t) && IsLeader(c.img, c.f, HomeOf(c, t))
            && HomeOf(c, t) in live
  {
    hide IsLeader, BlockAt, BlockEnd, EmittedAt, TableTarget, BlockStart;
    HomeContains(c, t);
    BlockStartsAt(c, HomeOf(c, t));
    if IsLeader(c.img, c.f, t) {
      LeaderHome(c, t);
    }
  }

  /** A goto to a live label resumes in front of its code. */
  lemma GotoResumes(c: Context, live: set<int>, text: seq<Stmt>, entry: seq<Stmt>, tail: seq<Stmt>, t: int)
    requires c.f.Valid() && LabelsEmitted(c) && LiveLabel(c, live, t) && TextAround(text, c, live, entry, tail)
    ensures AfterLabel(text, t) == Some(ResumeText(c, live, tail, t))
  {
    hide IsLeader, BlockAt, BlockEnd, EmittedAt, LiveLabel, LabelsEmitted, TextAround, BodyFrom, ResumeCode,
         LabelPlaced;
    LiveIsPlaced(c, live, t);
    BlockStartsAt(c, HomeOf(c, t));
    GotoFindsLabel(text, c, live, entry, tail, HomeOf(c, t), t);
  }

  // ---- the entry switch ----

  lemma {:induction false} CaseForContinuation(c: Context, conts: seq<int>, seen: set<int>, charged: bool, k: Word)
    requires forall x :: x in conts ==> 0 <= x < WORD_LIMIT
    requires k as int !in seen
    ensures FindCase(ContinuationCases(c, conts, seen, charged), k)
            == if k as int in conts then Some(Case(k, if charged then MidBlockCharge(c, k) else 0, k)) else None
    decreases |conts|
  {
    hide MidBlockCharge;
    if conts != [] {
      assert conts[0] in conts;
      assert forall x :: x in conts <==> x == conts[0] || x in conts[1..];
      var cases := ContinuationCases(c, conts, seen, charged);
      if conts[0] in seen {
        CaseForContinuation(c, conts[1..], seen, charged, k);
      } else {
        assert cases[1..] == ContinuationCases(c, conts[1..], seen + {conts[0]}, charged);
        if conts[0] != k {
          CaseForContinuation(c, conts[1..], seen + {conts[0]}, charged, k);
        }
      }
    }
  }

  lemma LeaderIsNotCharged(c: Context, k: int)
    requires IsLeader(c.img, c.f, k)
    ensures MidBlockCharge(c, k) == 0
  {
    hide IsLeader;
  }

  lemma RunEntrySwitch(cases: seq<Case>, overlay: bool, start: Word, rest: seq<Stmt>, h: Host)
    ensures h.pc == 0 ==> RunStmts([EntrySwitch(cases, overlay, start)] + rest, h) == RunStmts(rest, h)
    ensures h.pc != 0 && FindCase(cases, h.pc).Some? ==>
              RunStmts([EntrySwitch(cases, overlay, start)] + rest, h)
                == TakeCase(FindCase(cases, h.pc).value, rest, SetPc(h, 0))
    ensures h.pc != 0 && FindCase(cases, h.pc) == None ==>
              RunStmts([EntrySwitch(cases, overlay, start)] + rest, h)
              == if overlay && h.pc != start then Outcome(BadEntry, rest, h) else RunStmts(rest, SetPc(h, 0))
  {
    hide RunStmts;
    RunCons(EntrySwitch(cases, overlay, start), rest, h);
  }

  lemma RunEntryGoto(entries: seq<Word>, rest: seq<Stmt>, h: Host)
    requires h.entry in entries
    ensures RunStmts([EntryGoto(entries)] + rest, h) == Outcome(Jumped(h.entry), rest, h)
  {
    hide RunStmts;
    RunCons(EntryGoto(entries), rest, h);
  }

  /** The entry code with `cpu->pc` clear does nothing. */
  lemma EnterWithoutPc(c: Context, conts: seq<int>, charged: bool, overlay: bool, rest: seq<Stmt>, h: Host)
    requires h.pc == 0
    ensures RunStmts(EntryCode(c, conts, charged, overlay) + rest, h) == RunStmts(rest, h)
  {
    hide RunStmts, ContinuationCases;
    if conts == [] {
      assert EntryCode(c, conts, charged, overlay) + rest == rest;
    } else {
      RunEntrySwitch(ContinuationCases(c, conts, {}, charged), overlay, c.f.start, rest, h);
    }
  }

  /** The entry code takes a registered continuation to its label, with `cpu->pc` cleared and
      nothing charged. */
  lemma EnterAtContinuation(c: Context, conts: seq<int>, charged: bool, overlay: bool, rest: seq<Stmt>, h: Host)
    requires h.pc != 0 && h.pc as int in conts && IsLeader(c.img, c.f, h.pc)
    requires forall x :: x in conts ==> 0 <= x < WORD_LIMIT
    ensures RunStmts(EntryCode(c, conts, charged, overlay) + rest, h) == Outcome(Jumped(h.pc), rest, SetPc(h, 0))
  {
    hide RunStmts, ContinuationCases, IsLeader, MidBlockCharge;
    RunEntrySwitch(ContinuationCases(c, conts, {}, charged), overlay, c.f.start, rest, h);
    CaseForContinuation(c, conts, {}, charged, h.pc);
    LeaderIsNotCharged(c, h.pc);
    var h' := SetPc(h, 0);
    assert h'.(cycles := h'.cycles + 0) == h';
  }

  /** Address `a` is where an entry into unit `i` with host state `h` is meant to go. */
  ghost predicate EntersAt(b: Build, i: nat, h: Host, a: Word)
    requires i < |b.functions|
  {
    if h.pc != 0 then a == h.pc && a as int in UnitContinuations(b, i)
    else if b.functions[i].IsAlias() then a == h.entry && a in UnitEntries(b, i)
    else a == b.functions[i].start
  }

  lemma EntryIsLiveLeader(b: Build, i: nat, h: Host, a: Word)
    requires b.Valid() && b.Translated(i) && EntersAt(b, i, h, a)
    ensures IsLeader(b.img, b.functions[i], a) && a in UnitLive(b, i)
    ensures forall x :: x in UnitContinuations(b, i) ==> 0 <= x < WORD_LIMIT
  {
    hide IsLeader, Build.Valid, UnitLive, ClosedUnderEdges, Continuations;
    UnitIsClosed(b, i);
    ContinuationsFit(b, i);
    if h.pc != 0 {
      ContinuationsAreLeaders(UnitContext(b, i), UnitLive(b, i), StartsOf(UnitEntries(b, i)), a);
    } else {
      UnitEntryIsLive(b, i, a);
    }
  }

  /** Running a unit's text from the top reaches the label it was entered for, charging
      nothing and leaving `cpu->pc` 0. */
  lemma UnitEnters(b: Build, i: nat, h: Host, a: Word)
    requires b.Valid() && b.IsUnit(i) && EntersAt(b, i, h, a)
    ensures var o := RunStmts(UnitText(b, i), h);
            && o.h == SetPc(h, 0) && (o.event == Reached(a) || o.event == Jumped(a))
            && (o.event == Reached(a) ==> o.rest == ResumeText(UnitContext(b, i), UnitLive(b, i), UnitTail(b, i), a))
    ensures LiveLabel(UnitContext(b, i), UnitLive(b, i), a) && IsLeader(b.img, b.functions[i], a)
  {
    hide IsLeader, Build.Valid, UnitLive, UnitContinuations, RunStmts, UnitText, EntryCode, UnitTail, ResumeText,
         LiveLabel, BodyFrom, UnitEntries;
    var f := b.functions[i];
    var c := UnitContext(b, i);
    var live, tail := UnitLive(b, i), UnitTail(b, i);
    var conts := UnitContinuations(b, i);
    UnitParts(b, i);
    UnitIsClosed(b, i);
    EntryIsLiveLeader(b, i, h, a);
    LeaderIsLiveLabel(c, live, a);
    var body := UnitBody(b, i) + tail;
    var goto_ := if f.IsAlias() then [EntryGoto(UnitEntries(b, i))] else [];
    var code := EntryCode(c, conts, !f.IsAlias(), !f.IsAlias() && b.overlay);
    assert UnitText(b, i) == code + (goto_ + body);
    if h.pc != 0 {
      EnterAtContinuation(c, conts, !f.IsAlias(), !f.IsAlias() && b.overlay, goto_ + body, h);
    } else {
      assert SetPc(h, 0) == h;
      EnterWithoutPc(c, conts, !f.IsAlias(), !f.IsAlias() && b.overlay, goto_ + body, h);
      if f.IsAlias() {
        RunEntryGoto(UnitEntries(b, i), body, h);
      } else {
        assert goto_ + body == body;
        BodyAtBlock(c, live, tail, a);
        RunLabel(a, ResumeText(c, live, tail, a), h);
      }
    }
  }

  // ---- continuation-passing routing ----

  /** Every owner serves its continuation: it is the leader of a block of a translated unit
      that starts at the owner, the unit's text has its label, and entering the unit with
      `cpu->pc` set to it goes there. */
  lemma OwnerServes(b: Build, k: Word, h: Host) returns (i: nat)
    requires b.Valid() && k in ProgramOf(b).owner && h.pc == k && k != 0
    ensures b.Translated(i) && ProgramOf(b).owner[k] == b.functions[i].start
    ensures IsLeader(b.img, b.functions[i], k) && k in UnitLive(b, i)
    ensures AfterLabel(UnitText(b, i), k) == Some(ResumeText(UnitContext(b, i), UnitLive(b, i), UnitTail(b, i), k))
    ensures b.IsUnit(i) ==>
              RunStmts(UnitText(b, i), h).h == SetPc(h, 0) && RunStmts(UnitText(b, i), h).event == Jumped(k)
  {
    hide Build.Valid, UnitLive, UnitContinuations, UnitText, UnitTail, ResumeText, RunStmts, IsLeader, OwnerUpTo,
         TextUpTo, AfterLabel, Build.IsUnit, Build.Translated;
    i := OwnerRegistered(b, |b.functions|, k);
    ContinuationHasLabel(b, i, k);
    if b.IsUnit(i) {
      EntersByJump(b, i, h, k);
    }
  }

  lemma ContinuationHasLabel(b: Build, i: nat, k: Word)
    requires b.Valid() && b.Translated(i) && k as int in UnitContinuations(b, i)
    ensures IsLeader(b.img, b.functions[i], k) && k in UnitLive(b, i)
    ensures AfterLabel(UnitText(b, i), k) == Some(ResumeText(UnitContext(b, i), UnitLive(b, i), UnitTail(b, i), k))
  {
    hide Build.Valid, UnitLive, Continuations, UnitText, UnitTail, ResumeText, IsLeader, TextAround, ClosedUnderEdges,
         AfterLabel;
    UnitIsClosed(b, i);
    ContinuationsAreLeaders(UnitContext(b, i), UnitLive(b, i), StartsOf(UnitEntries(b, i)), k);
    UnitParts(b, i);
    LeaderIsPlaced(UnitContext(b, i), UnitLive(b, i), UnitText(b, i), UnitEntry(b, i), UnitTail(b, i), k);
  }

  lemma LeaderIsPlaced(c: Context, live: set<int>, text: seq<Stmt>, entry: seq<Stmt>, tail: seq<Stmt>, a: int)
    requires c.f.Valid() && IsLeader(c.img, c.f, a) && a in live && TextAround(text, c, live, entry, tail)
    ensures AfterLabel(text, a) == Some(ResumeText(c, live, tail, a))
  {
    hide IsLeader, BlockAt, BlockEnd, TextAround, BodyFrom, ResumeCode;
    BlockStartsAt(c, a);
    BlockShape(c.img, c.f, a);
    LeaderHome(c, a);
    GotoFindsLabel(text, c, live, entry, tail, a, a);
  }

  lemma EntersByJump(b: Build, i: nat, h: Host, k: Word)
    requires b.Valid() && b.IsUnit(i) && h.pc == k && k != 0 && k as int in UnitContinuations(b, i)
    ensures RunStmts(UnitText(b, i), h).h == SetPc(h, 0) && RunStmts(UnitText(b, i), h).event == Jumped(k)
  {
    hide Build.Valid, UnitLive, UnitContinuations, RunStmts, UnitText, EntryCode, UnitTail, BodyFrom, UnitEntries,
         IsLeader;
    var f := b.functions[i];
    UnitParts(b, i);
    EntryIsLiveLeader(b, i, h, k);
    var goto_ := if f.IsAlias() then [EntryGoto(UnitEntries(b, i))] else [];
    var code := EntryCode(UnitContext(b, i), UnitContinuations(b, i), !f.IsAlias(), !f.IsAlias() && b.overlay);
    var rest := goto_ + (UnitBody(b, i) + UnitTail(b, i));
    assert UnitText(b, i) == code + rest;
    EnterAtContinuation(UnitContext(b, i), UnitContinuations(b, i), !f.IsAlias(), !f.IsAlias() && b.overlay, rest, h);
  }

  /** Every emitted leader that is not an entry can be dispatched. */
  lemma LeaderHasOwner(b: Build, i: nat, k: Word)
    requires b.Valid() && b.Translated(i) && IsLeader(b.img, b.functions[i], k) && k in UnitLive(b, i)
    requires k !in UnitEntries(b, i)
    ensures k in ProgramOf(b).owner
  {
    hide Build.Valid, UnitLive, IsLeader, OwnerUpTo, TextUpTo, ClosedUnderEdges, Continuations;
    UnitIsClosed(b, i);
    ContinuationsAreLeaders(UnitContext(b, i), UnitLive(b, i), StartsOf(UnitEntries(b, i)), k);
    ContinuationHasOwner(b, |b.functions|, i, k);
  }

  /** In overlay mode an address the function does not serve is handed back with nothing
      changed, exactly when the function has an entry switch; without one, that is when it
      registers no continuation at all, it runs from its top with `cpu->pc` still set. */
  lemma ForeignAddress(b: Build, i: nat, h: Host)
    requires b.Valid() && b.IsUnit(i) && !b.functions[i].IsAlias() && b.overlay
    requires h.pc != 0 && h.pc != b.functions[i].start && h.pc as int !in UnitContinuations(b, i)
    ensures var o := RunStmts(UnitText(b, i), h);
            && o.h == h
            && (o.event == BadEntry <==> UnitContinuations(b, i) != [])
            && (o.event != BadEntry ==> o.event == Reached(b.functions[i].start))
  {
    hide Build.Valid, UnitLive, UnitContinuations, RunStmts, UnitText, ContinuationCases, UnitTail, BodyFrom,
         UnitEntries, IsLeader, ResumeText;
    var f := b.functions[i];
    var c := UnitContext(b, i);
    var conts := UnitContinuations(b, i);
    var live, tail := UnitLive(b, i), UnitTail(b, i);
    UnitParts(b, i);
    UnitIsClosed(b, i);
    ContinuationsFit(b, i);
    UnitEntryIsLive(b, i, f.start) by { StartIsEntry(b, i); }
    var body := UnitBody(b, i) + tail;
    BodyAtBlock(c, live, tail, f.start);
    RunLabel(f.start, ResumeText(c, live, tail, f.start), h);
    if conts == [] {
      assert UnitText(b, i) == body;
    } else {
      assert UnitText(b, i) == EntryCode(c, conts, true, true) + body;
      CaseForContinuation(c, conts, {}, true, h.pc);
      RunEntrySwitch(ContinuationCases(c, conts, {}, true), true, f.start, body, h);
    }
  }

  lemma StartIsEntry(b: Build, i: nat)
    requires i < |b.functions| && !b.functions[i].IsAlias()
    ensures b.functions[i].start in UnitEntries(b, i)
  {
  }

  /** A function registers no continuation just when it is one block that does not call a
      function returning to that block. */
  lemma WithoutContinuations(b: Build, i: nat)
    requires b.Valid() && b.Translated(i) && !b.functions[i].IsAlias()
    ensures var f := b.functions[i];
            UnitContinuations(b, i) == [] <==>
              (forall a :: IsLeader(b.img, f, a) ==> a == f.start) && CallContinuation(BlockAt(b.img, f, f.start)) == []
  {
    hide Build.Valid, IsLeader, BlockAt, CallContinuation, LeaderContinuations, CallContinuations, ClosedUnderEdges;
    var f := b.functions[i];
    var c := UnitContext(b, i);
    UnitIsClosed(b, i);
    AllBlocksClosed(c);
    StartsOfOne(f.start);
    LeaderContinuationsMembers(c, UnitLive(b, i), StartsOf(UnitEntries(b, i)), f.start);
    FirstLeader(b.img, f);
    if forall a :: IsLeader(b.img, f, a) ==> a == f.start {
      CallsOfOneBlock(c, UnitLive(b, i), f.start);
      var s := LeaderContinuations(c, UnitLive(b, i), StartsOf(UnitEntries(b, i)), f.start);
      if s != [] {
        var x := SomeMember(s);
      }
    } else {
      var a :| IsLeader(b.img, f, a) && a != f.start;
      LeaderBound(b.img, f, a);
      assert a in LeaderContinuations(c, UnitLive(b, i), StartsOf(UnitEntries(b, i)), f.start);
    }
  }

  lemma SomeMember(s: seq<int>) returns (x: int)
    requires s != []
    ensures x in s
  {
    x := s[0];
  }

  lemma CallsOfOneBlock(c: Context, live: set<int>, s: int)
    requires c.f.Valid() && s == c.f.WalkLo() && s in live && forall a :: IsLeader(c.img, c.f, a) ==> a == s
    ensures CallContinuations(c, live, s) == CallContinuation(BlockAt(c.img, c.f, s))
  {
    hide IsLeader, BlockAt, CallContinuation;
    FirstLeader(c.img, c.f);
    NoCallsBehind(c, live, s + 4);
  }

  lemma {:induction false} NoCallsBehind(c: Context, live: set<int>, x: int)
    requires forall a :: IsLeader(c.img, c.f, a) ==> a < x
    ensures CallContinuations(c, live, x) == []
    decreases c.f.end - x
  {
    hide IsLeader, BlockAt, CallContinuation;
    if x < c.f.end {
      NoCallsBehind(c, live, x + 4);
    }
  }
}
