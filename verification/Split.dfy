/** The mid-function split pre-pass of generate_file: every branch or jump into the middle
    of code becomes the start of a function of its own, pass after pass, until none is
    left.  The pass cap of the source is lifted; the loop still ends.

    Functions are kept in a map by start address (the source sorts a vector by it). */
module Split {
  import opened Words
  import opened Addresses
  import opened ControlFlow

  type Functions = map<Word, Function>

  /** Every function is found under its start. */
  ghost predicate Consistent(fs: Functions) {
    forall s :: s in fs ==> fs[s].start == s && fs[s].Valid()
  }

  /** Alias entries never contain anything: their host does. */
  function PlainStarts(fs: Functions): set<Word> {
    set s | s in fs && !fs[s].IsAlias()
  }

  // ---- targets to look at ----

  /** The addresses check_target is asked about for one block. */
  function ExitTargets(exit: ControlFlowInstr): seq<int> {
    match exit.kind
    case Branch => [exit.target, exit.address + 8]
    case Jump => [exit.target]
    case _ => []
  }

  predicate InImage(img: Image, t: int) {
    img.load <= t < img.End()
  }

  /** A target that needs a function of its own. */
  predicate MidTarget(img: Image, cfg: Cfg, known: set<Word>, t: int) {
    t != 0 && t !in cfg.blocks && t !in known && InImage(img, t) && Aligned(t)
  }

  predicate TargetOf(cfg: Cfg, t: int) {
    exists a :: a in cfg.order && a in cfg.blocks && t in ExitTargets(cfg.blocks[a].exit)
  }

  ghost predicate Resolved(img: Image, cfg: Cfg, known: set<Word>) {
    forall t :: TargetOf(cfg, t) ==> !MidTarget(img, cfg, known, t)
  }

  /** The mid targets of the graphs that are scanned. */
  ghost predicate IsMid(img: Image, cfgs: map<Word, Cfg>, scan: set<Word>, known: set<Word>, t: int) {
    exists s :: s in scan && s in cfgs && TargetOf(cfgs[s], t) && MidTarget(img, cfgs[s], known, t)
  }

  /** One graph's mid targets. */
  method ScanCfg(img: Image, cfg: Cfg, known: set<Word>) returns (mid: set<Word>)
    requires img.End() <= WORD_LIMIT && 0 <= img.load
    ensures forall t: Word :: t in mid <==> TargetOf(cfg, t) && MidTarget(img, cfg, known, t)
  {
    hide MidTarget, ExitTargets;
    mid := {};
    var k := 0;
    while k < |cfg.order|
      invariant 0 <= k <= |cfg.order|
      invariant forall t: Word :: t in mid <==>
                  MidTarget(img, cfg, known, t)
                  && exists a :: a in cfg.order[..k] && a in cfg.blocks && t in ExitTargets(cfg.blocks[a].exit)
    {
      var a := cfg.order[k];
      assert cfg.order[..k + 1] == cfg.order[..k] + [a];
      if a in cfg.blocks {
        var targets := ExitTargets(cfg.blocks[a].exit);
        mid := mid + set t: Word | t in targets && MidTarget(img, cfg, known, t);
      }
      k := k + 1;
    }
    assert cfg.order[..k] == cfg.order;
  }

  method ScanCfgs(img: Image, cfgs: map<Word, Cfg>, scan: set<Word>, known: set<Word>) returns (mid: set<Word>)
    requires img.End() <= WORD_LIMIT && 0 <= img.load
    ensures forall t: Word :: t in mid <==> IsMid(img, cfgs, scan, known, t)
  {
    hide MidTarget, TargetOf;
    mid := {};
    var todo := scan;
    while todo != {}
      invariant todo <= scan
      invariant forall t: Word :: t in mid <==>
                  exists s :: s in scan && s !in todo && s in cfgs && TargetOf(cfgs[s], t)
                    && MidTarget(img, cfgs[s], known, t)
      decreases |todo|
    {
      var s :| s in todo;
      todo := todo - {s};
      if s in cfgs {
        var more := ScanCfg(img, cfgs[s], known);
        mid := mid + more;
      }
    }
  }

  // ---- where a target falls ----

  /** The function whose range holds `t`. */
  function ContainerOf(fs: Functions, t: Word): Option<Word> {
    var s := LastAt(PlainStarts(fs), t);
    if s.Some? && s.value in fs && s.value < t < fs[s.value].end then s else None
  }

  function CutsOf(fs: Functions, mid: set<Word>, s: Word): set<Word> {
    set t | t in mid && ContainerOf(fs, t) == Some(s)
  }

  /** A target's own function: to the next cut of its container, or, in a gap, to the next
      function or the end of the image. */
  function Piece(img: Image, fs: Functions, mid: set<Word>, t: Word): Function
    requires img.End() < WORD_LIMIT
  {
    match ContainerOf(fs, t)
    case Some(s) =>
      if s in fs && t < fs[s].end then Function(t, NextCut(CutsOf(fs, mid, s), t, fs[s].end), 0, [], fs[s].isData)
      else Function(t, t, 0, [], false)
    case None =>
      if t < img.End() then Function(t, NextCut(PlainStarts(fs), t, img.End()), 0, [], false)
      else Function(t, t, 0, [], false)
  }

  /** The pieces of [s, e) cut at `cuts`: each address is in exactly one of them. */
  lemma PiecesTile(cuts: set<Word>, s: Word, e: Word, x: Word, p: Word)
    requires s <= x < e && (forall t :: t in cuts ==> s < t < e)
    ensures (p == s || p in cuts) && p <= x < NextCut(cuts, p, e) <==> Some(p) == LastAt(cuts + {s}, x)
  {
    LastAtIsLast(cuts + {s}, x);
    var q := LastAt(cuts + {s}, x).value;
    NextCutIsNext(cuts, q, e);
    if p == s || p in cuts {
      NextCutIsNext(cuts, p, e);
    }
  }

  // ---- one pass ----

  /** Word-aligned, and clear of both ends of the address space. */
  predicate ImageOk(img: Image) {
    0 < img.load && Aligned(img.load) && Aligned(|img.code|) && img.End() + 8 <= WORD_LIMIT
  }

  /** Unknown code addresses of the image. */
  ghost predicate Fresh(img: Image, fs: Functions, mid: set<Word>) {
    forall t :: t in mid ==> InImage(img, t) && Aligned(t) && t !in fs
  }

  /** What a pass leaves under `s`. */
  function Shortened(fs: Functions, mid: set<Word>, s: Word): Function
    requires s in fs && fs[s].start == s && s < fs[s].end
  {
    if fs[s].IsAlias() then fs[s] else fs[s].(end := NextCut(CutsOf(fs, mid, s), s, fs[s].end))
  }

  method SortedTargets(ts: set<Word>) returns (s: seq<int>)
    ensures StrictlyIncreasing(s) && forall x :: x in s <==> x in ts
  {
    hide StrictlyIncreasing;
    var todo := ts;
    s := [];
    while todo != {}
      invariant todo <= ts
      invariant forall x :: x in s <==> x in ts && x !in todo
      decreases |todo|
    {
      var x: int :| x in todo;
      todo := todo - {x};
      s := s + [x];
    }
    s := SortUnique(s);
  }

  /** In a sorted list of cuts, the next cut is the next element. */
  lemma CutAtIndex(cuts: set<Word>, ts: seq<int>, i: nat, e: int)
    requires StrictlyIncreasing(ts) && i < |ts| && (forall x :: x in ts <==> x in cuts)
    requires forall x :: x in ts ==> x < e
    ensures NextCut(cuts, ts[i], e) == if i + 1 < |ts| then ts[i + 1] else e
  {
    assert ts[i] in ts;
    NextCutIsNext(cuts, ts[i], e);
    var r := NextCut(cuts, ts[i], e);
    if i + 1 < |ts| {
      assert ts[i + 1] in ts;
    }
    if r < e {
      assert r in ts;
      var j :| 0 <= j < |ts| && ts[j] == r;
    }
  }

  lemma FirstCut(cuts: set<Word>, ts: seq<int>, s: int, e: int)
    requires StrictlyIncreasing(ts) && ts != [] && (forall x :: x in ts <==> x in cuts)
    requires forall x :: x in ts ==> s < x < e
    ensures NextCut(cuts, s, e) == ts[0]
  {
    assert ts[0] in ts;
    NextCutIsNext(cuts, s, e);
    var r := NextCut(cuts, s, e);
    assert r < e ==> r in ts;
    if r in ts {
      var j :| 0 <= j < |ts| && ts[j] == r;
    }
  }

  /** The piece that starts at the cut `x` of function `f`. */
  function CutPiece(f: Function, cuts: set<Word>, x: Word): Function
    requires x < f.end
  {
    Function(x, NextCut(cuts, x, f.end), 0, [], f.isData)
  }

  /** Function `s` has been shortened, and the cuts in `done` have their pieces. */
  ghost predicate CutSoFar(fs: Functions, s: Word, cuts: set<Word>, done: set<Word>, r: Functions)
    requires s in fs && forall x :: x in cuts ==> s < x < fs[s].end
  {
    && r.Keys == fs.Keys + done
    && (forall x :: x in fs && x != s && x !in cuts ==> r[x] == fs[x])
    && r[s] == fs[s].(end := NextCut(cuts, s, fs[s].end))
    && (forall x :: x in done && x in cuts ==> r[x] == CutPiece(fs[s], cuts, x))
  }

  lemma OneMoreCut(fs: Functions, s: Word, cuts: set<Word>, done: set<Word>, r: Functions, t: Word)
    requires s in fs && forall x :: x in cuts ==> s < x < fs[s].end
    requires CutSoFar(fs, s, cuts, done, r) && t in cuts
    ensures CutSoFar(fs, s, cuts, done + {t}, r[t := CutPiece(fs[s], cuts, t)])
  {
    hide CutPiece, NextCut;
  }

  /** Cutting one function at its targets: it keeps the first piece, each target gets the
      stretch to the next. */
  method SplitFunction(fs: Functions, s: Word, cuts: set<Word>) returns (r: Functions)
    requires s in fs && fs[s].start == s && s < fs[s].end && cuts != {}
    requires forall x :: x in cuts ==> s < x < fs[s].end
    ensures r.Keys == fs.Keys + cuts
    ensures forall x :: x in fs && x != s && x !in cuts ==> r[x] == fs[x]
    ensures r[s] == fs[s].(end := NextCut(cuts, s, fs[s].end))
    ensures forall x: Word :: x in cuts ==> r[x] == Function(x, NextCut(cuts, x, fs[s].end), 0, [], fs[s].isData)
  {
    var ts := SortedTargets(cuts);
    r := PlacePieces(fs, s, cuts, ts);
    assert forall x :: x in cuts ==> r[x] == CutPiece(fs[s], cuts, x);
  }

  method PlacePieces(fs: Functions, s: Word, cuts: set<Word>, ts: seq<int>) returns (r: Functions)
    requires s in fs && fs[s].start == s && s < fs[s].end && cuts != {}
    requires forall x :: x in cuts ==> s < x < fs[s].end
    requires StrictlyIncreasing(ts) && forall x :: x in ts <==> x in cuts
    ensures CutSoFar(fs, s, cuts, cuts, r)
  {
    hide StrictlyIncreasing, NextCut, CutSoFar;
    var f := fs[s];
    NonemptyOrder(cuts, ts);
    FirstCut(cuts, ts, s, f.end);
    r := fs[s := f.(end := ts[0])];
    ghost var done: set<Word> := {};
    NoCutYet(fs, s, cuts);
    var i := 0;
    while i < |ts|
      invariant 0 <= i <= |ts|
      invariant forall x :: x in done <==> x in ts[..i]
      invariant CutSoFar(fs, s, cuts, done, r)
    {
      assert ts[i] in ts && ts[..i + 1] == ts[..i] + [ts[i]];
      CutAtIndex(cuts, ts, i, f.end);
      var t: Word := ts[i];
      OneMoreCut(fs, s, cuts, done, r, t);
      r := r[t := Function(t, if i + 1 < |ts| then ts[i + 1] else f.end, 0, [], f.isData)];
      done := done + {t};
      i := i + 1;
    }
    assert ts[..i] == ts;
    assert done == cuts;
  }

  lemma NoCutYet(fs: Functions, s: Word, cuts: set<Word>)
    requires s in fs && forall x :: x in cuts ==> s < x < fs[s].end
    ensures CutSoFar(fs, s, cuts, {}, fs[s := fs[s].(end := NextCut(cuts, s, fs[s].end))])
  {
    hide NextCut;
  }

  lemma NonemptyOrder(cuts: set<Word>, ts: seq<int>)
    requires cuts != {} && forall x :: x in ts <==> x in cuts
    ensures ts != []
  {
    var x: int :| x in cuts;
    assert x in ts;
  }

  // ---- one pass over the functions ----

  lemma ContainerHolds(fs: Functions, t: Word)
    ensures match ContainerOf(fs, t)
            case Some(s) => s in fs && !fs[s].IsAlias() && s < t < fs[s].end
            case None => true
  {
    LastAtIsLast(PlainStarts(fs), t);
  }

  ghost predicate Grouped(fs: Functions, mid: set<Word>, splits: map<Word, set<Word>>, gaps: set<Word>) {
    && (forall s :: s in splits <==> CutsOf(fs, mid, s) != {})
    && (forall s :: s in splits ==> splits[s] == CutsOf(fs, mid, s))
    && (forall t :: t in gaps <==> t in mid && ContainerOf(fs, t) == None)
  }

  /** The targets of each containing function, and those in gaps. */
  method GroupTargets(fs: Functions, mid: set<Word>) returns (splits: map<Word, set<Word>>, gaps: set<Word>)
    ensures Grouped(fs, mid, splits, gaps)
  {
    hide ContainerOf, Grouped;
    splits, gaps := map[], {};
    var todo := mid;
    ghost var done: set<Word> := {};
    GroupNone(fs);
    while todo != {}
      invariant done + todo == mid
      invariant Grouped(fs, done, splits, gaps)
      decreases |todo|
    {
      var t :| t in todo;
      var c := ContainerOf(fs, t);
      GroupOne(fs, done, splits, gaps, t);
      todo, done := todo - {t}, done + {t};
      if c == None {
        gaps := gaps + {t};
      } else {
        splits := splits[c.value := (if c.value in splits then splits[c.value] else {}) + {t}];
      }
    }
    assert done == mid;
  }

  lemma GroupNone(fs: Functions)
    ensures Grouped(fs, {}, map[], {})
  {
  }

  lemma GroupOne(fs: Functions, done: set<Word>, splits: map<Word, set<Word>>, gaps: set<Word>, t: Word)
    requires Grouped(fs, done, splits, gaps)
    ensures var c := ContainerOf(fs, t);
            if c == None then Grouped(fs, done + {t}, splits, gaps + {t})
            else Grouped(fs, done + {t}, splits[c.value := (if c.value in splits then splits[c.value]
              else {}) + {t}], gaps)
  {
    hide ContainerOf;
    forall s: Word
      ensures CutsOf(fs, done + {t}, s) == CutsOf(fs, done, s) + if ContainerOf(fs, t) == Some(s) then {t} else {}
    {
    }
  }

  /** What a pass makes of the functions: those that contain targets are cut, each target
      starts a piece, the rest stays. */
  ghost predicate Passed(img: Image, fs: Functions, mid: set<Word>, r: Functions)
    requires img.End() < WORD_LIMIT && Consistent(fs)
  {
    && r.Keys == fs.Keys + mid
    && (forall s :: s in fs ==> r[s] == Shortened(fs, mid, s))
    && (forall t :: t in mid ==> r[t] == Piece(img, fs, mid, t))
  }

  ghost predicate GapsAdded(img: Image, fs: Functions, mid: set<Word>, gaps: set<Word>, r: Functions)
    requires img.End() < WORD_LIMIT
  {
    && r.Keys == fs.Keys + gaps
    && (forall s :: s in fs ==> r[s] == fs[s])
    && (forall t :: t in gaps ==> r[t] == Piece(img, fs, mid, t))
  }

  /** The gap targets' pieces, added to the functions. */
  method AddGaps(img: Image, fs: Functions, mid: set<Word>, gaps: set<Word>) returns (r: Functions)
    requires img.End() < WORD_LIMIT && forall t :: t in gaps ==>
            InImage(img, t) && t !in fs && ContainerOf(fs, t) == None
    ensures GapsAdded(img, fs, mid, gaps, r)
  {
    hide ContainerOf, NextCut, Piece, PlainStarts, GapsAdded;
    r := fs;
    var todo := gaps;
    ghost var done: set<Word> := {};
    assert GapsAdded(img, fs, mid, done, r) by { NoGaps(img, fs, mid); }
    while todo != {}
      invariant done + todo == gaps && GapsAdded(img, fs, mid, done, r)
      decreases |todo|
    {
      var t :| t in todo;
      GapPiece(img, fs, mid, t);
      OneGap(img, fs, mid, done, r, t);
      r := r[t := Function(t, NextCut(PlainStarts(fs), t, img.End()), 0, [], false)];
      todo, done := todo - {t}, done + {t};
    }
    assert done == gaps;
  }

  lemma NoGaps(img: Image, fs: Functions, mid: set<Word>)
    requires img.End() < WORD_LIMIT
    ensures GapsAdded(img, fs, mid, {}, fs)
  {
  }

  lemma OneGap(img: Image, fs: Functions, mid: set<Word>, done: set<Word>, r: Functions, t: Word)
    requires img.End() < WORD_LIMIT && GapsAdded(img, fs, mid, done, r) && t !in fs
    ensures GapsAdded(img, fs, mid, done + {t}, r[t := Piece(img, fs, mid, t)])
  {
    hide Piece;
  }

  lemma GapPiece(img: Image, fs: Functions, mid: set<Word>, t: Word)
    requires img.End() < WORD_LIMIT && InImage(img, t) && ContainerOf(fs, t) == None
    ensures Piece(img, fs, mid, t) == Function(t, NextCut(PlainStarts(fs), t, img.End()), 0, [], false)
  {
    hide ContainerOf, PlainStarts;
  }

  /** Where the split loop stands: the containers in `todo` and their targets are untouched. */
  ghost predicate Splitting(img: Image, fs: Functions, mid: set<Word>, todo: set<Word>, r: Functions)
    requires img.End() < WORD_LIMIT && Consistent(fs)
  {
    && (forall x :: x in r <==>
      x in fs || (x in mid && (ContainerOf(fs, x) == None || ContainerOf(fs, x).value !in todo)))
    && (forall s :: s in fs ==> r[s] == if s in todo then fs[s] else Shortened(fs, mid, s))
    && (forall t :: t in mid && (ContainerOf(fs, t) == None || ContainerOf(fs, t).value !in todo) ==>
      r[t] == Piece(img, fs, mid, t))
  }

  lemma SplitStarts(img: Image, fs: Functions, mid: set<Word>, splits: map<Word, set<Word>>, gaps: set<Word>,
                    r: Functions)
    requires img.End() < WORD_LIMIT && Consistent(fs) && Grouped(fs, mid, splits, gaps)
    requires GapsAdded(img, fs, mid, gaps, r)
    ensures Splitting(img, fs, mid, splits.Keys, r)
  {
    hide ContainerOf, Piece;
    forall t | t in mid && ContainerOf(fs, t) != None ensures ContainerOf(fs, t).value in splits {
      assert t in CutsOf(fs, mid, ContainerOf(fs, t).value);
    }
    forall s | s in fs && s !in splits ensures Shortened(fs, mid, s) == fs[s] {
      StartBelowEnd(fs, s);
      NoCut(s, fs[s].end);
    }
  }

  lemma StartBelowEnd(fs: Functions, s: Word)
    requires Consistent(fs) && s in fs
    ensures s < fs[s].end && fs[s].start == s
  {
  }

  lemma SplitOne(img: Image, fs: Functions, mid: set<Word>, todo: set<Word>, r: Functions, s: Word, r': Functions)
    requires img.End() < WORD_LIMIT && Consistent(fs) && Splitting(img, fs, mid, todo, r)
    requires s in todo && s in fs && !fs[s].IsAlias() && forall t :: t in mid ==> t !in fs
    requires var cuts := CutsOf(fs, mid, s);
             && r'.Keys == r.Keys + cuts
             && (forall x :: x in r && x != s && x !in cuts ==> r'[x] == r[x])
             && r'[s] == fs[s].(end := NextCut(cuts, s, fs[s].end))
             && (forall x :: x in cuts ==> r'[x] == Function(x, NextCut(cuts, x, fs[s].end), 0, [], fs[s].isData))
    ensures Splitting(img, fs, mid, todo - {s}, r')
  {
    hide ContainerOf, Function.Valid, Consistent, Piece, NextCut, Shortened, CutsOf;
    StartBelowEnd(fs, s);
    ShortenedPlain(fs, mid, s);
    CutsAre(fs, mid, s);
    forall t | t in CutsOf(fs, mid, s) ensures r'[t] == Piece(img, fs, mid, t) {
      ContainedPiece(img, fs, mid, s, t);
    }
  }

  lemma ShortenedPlain(fs: Functions, mid: set<Word>, s: Word)
    requires s in fs && fs[s].start == s && s < fs[s].end && !fs[s].IsAlias()
    ensures Shortened(fs, mid, s) == fs[s].(end := NextCut(CutsOf(fs, mid, s), s, fs[s].end))
  {
  }

  lemma CutsAre(fs: Functions, mid: set<Word>, s: Word)
    ensures forall t: Word :: t in CutsOf(fs, mid, s) <==> t in mid && ContainerOf(fs, t) == Some(s)
  {
    hide ContainerOf;
  }

  lemma ContainedPiece(img: Image, fs: Functions, mid: set<Word>, s: Word, t: Word)
    requires img.End() < WORD_LIMIT && t in CutsOf(fs, mid, s)
    ensures s in fs && s < t < fs[s].end
    ensures Piece(img, fs, mid, t) == Function(t, NextCut(CutsOf(fs, mid, s), t, fs[s].end), 0, [], fs[s].isData)
  {
    hide ContainerOf, NextCut;
    ContainerHolds(fs, t);
  }

  /** One pass of the loop. */
  method SplitPass(img: Image, fs: Functions, mid: set<Word>) returns (r: Functions, affected: set<Word>)
    requires ImageOk(img) && Consistent(fs) && Fresh(img, fs, mid)
    ensures Passed(img, fs, mid, r)
    ensures affected <= r.Keys && mid <= affected
    ensures forall s :: s in fs && s !in affected ==> r[s] == fs[s]
  {
    hide ContainerOf, Function.Valid, Consistent, Piece, Shortened, Splitting, NextCut;
    var splits, gaps := GroupTargets(fs, mid);
    r := AddGaps(img, fs, mid, gaps);
    SplitStarts(img, fs, mid, splits, gaps, r);
    affected := mid;
    var todo := splits.Keys;
    while todo != {}
      invariant todo <= splits.Keys
      invariant Splitting(img, fs, mid, todo, r)
      invariant mid <= affected <= mid + splits.Keys && splits.Keys - todo <= affected
      decreases |todo|
    {
      var s :| s in todo;
      CutFacts(fs, mid, s);
      SplittingAt(img, fs, mid, todo, r, s);
      var r' := SplitFunction(r, s, splits[s]);
      SplitOne(img, fs, mid, todo, r, s, r');
      r := r';
      affected := affected + {s};
      todo := todo - {s};
    }
    SplitEnds(img, fs, mid, r);
    forall s | s in splits ensures s in fs {
      CutFacts(fs, mid, s);
    }
    forall s | s in fs && s !in affected ensures r[s] == fs[s] {
      StartBelowEnd(fs, s);
      Untouched(fs, mid, s);
    }
  }

  lemma CutFacts(fs: Functions, mid: set<Word>, s: Word)
    requires Consistent(fs) && CutsOf(fs, mid, s) != {}
    ensures s in fs && !fs[s].IsAlias() && fs[s].start == s && s < fs[s].end
    ensures forall t :: t in CutsOf(fs, mid, s) ==> s < t < fs[s].end
  {
    hide ContainerOf;
    forall t | t in CutsOf(fs, mid, s) ensures s in fs && s < t < fs[s].end && !fs[s].IsAlias() {
      ContainerHolds(fs, t);
    }
    var t :| t in CutsOf(fs, mid, s);
    StartBelowEnd(fs, s);
  }

  lemma SplittingAt(img: Image, fs: Functions, mid: set<Word>, todo: set<Word>, r: Functions, s: Word)
    requires img.End() < WORD_LIMIT && Consistent(fs) && Splitting(img, fs, mid, todo, r) && s in todo && s in fs
    ensures s in r && r[s] == fs[s]
  {
    hide ContainerOf, Piece, Shortened;
  }

  lemma SplitEnds(img: Image, fs: Functions, mid: set<Word>, r: Functions)
    requires img.End() < WORD_LIMIT && Consistent(fs) && Splitting(img, fs, mid, {}, r)
    ensures Passed(img, fs, mid, r)
  {
    hide ContainerOf, Piece, Shortened;
  }

  lemma Untouched(fs: Functions, mid: set<Word>, s: Word)
    requires Consistent(fs) && s in fs && CutsOf(fs, mid, s) == {}
    ensures Shortened(fs, mid, s) == fs[s]
  {
    StartBelowEnd(fs, s);
    NoCut(s, fs[s].end);
  }

  // ---- passes until convergence ----

  /** The graphs on hand are those of the functions. */
  ghost predicate CfgsMatch(img: Image, fs: Functions, cfgs: map<Word, Cfg>) {
    forall s :: s in cfgs ==> s in fs && cfgs[s] == CfgOf(img, fs[s])
  }

  lemma CutAligned(cuts: set<Word>, x: int, e: int)
    requires x < e && Aligned(e) && forall t :: t in cuts ==> Aligned(t)
    ensures Aligned(NextCut(cuts, x, e)) && x < NextCut(cuts, x, e) <= e
  {
    NextCutIsNext(cuts, x, e);
  }

  lemma PlainAligned(fs: Functions)
    requires Consistent(fs)
    ensures forall s :: s in PlainStarts(fs) ==> Aligned(s)
  {
    assert forall s :: s in PlainStarts(fs) ==> fs[s].Valid();
  }

  lemma CutsAligned(fs: Functions, mid: set<Word>, s: Word)
    requires forall t :: t in mid ==> Aligned(t)
    ensures forall t :: t in CutsOf(fs, mid, s) ==> Aligned(t)
  {
  }

  lemma FunctionOk(fs: Functions, s: Word)
    requires Consistent(fs) && s in fs
    ensures fs[s].start == s && fs[s].Valid() && Aligned(fs[s].end) && fs[s].end + 8 <= WORD_LIMIT
  {
  }

  lemma FreshOne(img: Image, fs: Functions, mid: set<Word>, t: Word)
    requires Fresh(img, fs, mid) && t in mid
    ensures InImage(img, t) && Aligned(t)
  {
  }

  lemma FreshAligned(img: Image, fs: Functions, mid: set<Word>)
    requires Fresh(img, fs, mid)
    ensures forall t :: t in mid ==> Aligned(t)
  {
  }

  lemma PieceValid(img: Image, fs: Functions, mid: set<Word>, t: Word)
    requires ImageOk(img) && Consistent(fs) && Fresh(img, fs, mid) && t in mid
    ensures Piece(img, fs, mid, t).start == t && Piece(img, fs, mid, t).Valid()
  {
    hide NextCut, ContainerOf, PlainStarts, CutsOf, Consistent, Fresh, Aligned;
    ContainerHolds(fs, t);
    FreshOne(img, fs, mid, t);
    FreshAligned(img, fs, mid);
    var c := ContainerOf(fs, t);
    if c.Some? {
      FunctionOk(fs, c.value);
      CutsAligned(fs, mid, c.value);
      CutAligned(CutsOf(fs, mid, c.value), t, fs[c.value].end);
    } else {
      PlainAligned(fs);
      EndAligned(img);
      CutAligned(PlainStarts(fs), t, img.End());
    }
  }

  lemma EndAligned(img: Image)
    requires ImageOk(img)
    ensures Aligned(img.End())
  {
  }

  lemma ShortenedValid(img: Image, fs: Functions, mid: set<Word>, s: Word)
    requires Consistent(fs) && Fresh(img, fs, mid) && s in fs
    ensures fs[s].start == s && s < fs[s].end && Shortened(fs, mid, s).start == s && Shortened(fs, mid, s).Valid()
  {
    hide NextCut, CutsOf, Consistent, Fresh, Aligned;
    FunctionOk(fs, s);
    FreshAligned(img, fs, mid);
    CutsAligned(fs, mid, s);
    CutAligned(CutsOf(fs, mid, s), s, fs[s].end);
  }

  lemma PassedConsistent(img: Image, fs: Functions, mid: set<Word>, r: Functions)
    requires ImageOk(img) && Consistent(fs) && Fresh(img, fs, mid) && Passed(img, fs, mid, r)
    ensures Consistent(r)
  {
    hide Piece, Shortened, Fresh, Function.Valid;
    forall x | x in r ensures r[x].start == x && r[x].Valid() {
      if x in mid {
        PieceValid(img, fs, mid, x);
      } else {
        ShortenedValid(img, fs, mid, x);
      }
    }
  }

  ghost predicate Rebuilt(img: Image, fs: Functions, cfgs: map<Word, Cfg>, done: set<Word>, r: map<Word, Cfg>)
    requires done <= fs.Keys
  {
    && r.Keys == cfgs.Keys + done
    && (forall s :: s in done ==> r[s] == CfgOf(img, fs[s]))
    && (forall s :: s in cfgs && s !in done ==> r[s] == cfgs[s])
  }

  /** Graphs of the functions a pass changed or made. */
  method Rebuild(img: Image, fs: Functions, cfgs: map<Word, Cfg>, affected: set<Word>) returns (r: map<Word, Cfg>)
    requires Consistent(fs) && affected <= fs.Keys
    ensures Rebuilt(img, fs, cfgs, affected, r)
  {
    hide CfgOf, Function.Valid, Rebuilt;
    r := cfgs;
    var todo := affected;
    ghost var done: set<Word> := {};
    assert Rebuilt(img, fs, cfgs, done, r) by { NoneRebuilt(img, fs, cfgs); }
    while todo != {}
      invariant done + todo == affected && Rebuilt(img, fs, cfgs, done, r)
      decreases |todo|
    {
      var s :| s in todo;
      var cfg := AnalyzeFunction(img, fs[s]);
      OneRebuilt(img, fs, cfgs, done, r, s);
      r := r[s := cfg];
      todo, done := todo - {s}, done + {s};
    }
    assert done == affected;
  }

  lemma NoneRebuilt(img: Image, fs: Functions, cfgs: map<Word, Cfg>)
    ensures Rebuilt(img, fs, cfgs, {}, cfgs)
  {
  }

  lemma OneRebuilt(img: Image, fs: Functions, cfgs: map<Word, Cfg>, done: set<Word>, r: map<Word, Cfg>, s: Word)
    requires done <= fs.Keys && Rebuilt(img, fs, cfgs, done, r) && s in fs
    ensures Rebuilt(img, fs, cfgs, done + {s}, r[s := CfgOf(img, fs[s])])
  {
    hide CfgOf;
  }

  /** Aligned addresses of the image: what targets are drawn from. */
  function Candidates(img: Image): set<Word> {
    set a: Word | img.load <= a < img.End() && Aligned(a)
  }

  /** Scanning finds every target the scanned graphs leave unresolved. */
  lemma ScannedResolved(img: Image, fs: Functions, cfgs: map<Word, Cfg>, scan: set<Word>, mid: set<Word>)
    requires ImageOk(img) && forall t: Word :: t in mid <==> IsMid(img, cfgs, scan, fs.Keys, t)
    requires forall s :: s in cfgs && s !in scan ==> Resolved(img, cfgs[s], fs.Keys)
    ensures forall s :: s in cfgs ==> Resolved(img, cfgs[s], fs.Keys + mid)
    ensures Fresh(img, fs, mid) && mid <= Candidates(img) - fs.Keys
  {
    hide TargetOf;
    forall s, t | s in cfgs && TargetOf(cfgs[s], t) ensures !MidTarget(img, cfgs[s], fs.Keys + mid, t) {
      if s in scan && MidTarget(img, cfgs[s], fs.Keys, t) {
        assert IsMid(img, cfgs, scan, fs.Keys, t);
      }
    }
  }

  lemma RebuiltMatch(img: Image, fs: Functions, r: Functions, cfgs: map<Word, Cfg>, affected: set<Word>,
                     cfgs': map<Word, Cfg>)
    requires CfgsMatch(img, fs, cfgs) && affected <= r.Keys && fs.Keys <= r.Keys
    requires forall s :: s in fs && s !in affected ==> r[s] == fs[s]
    requires Rebuilt(img, r, cfgs, affected, cfgs')
    ensures CfgsMatch(img, r, cfgs')
  {
    hide CfgOf;
  }

  // ---- the pieces of a range, pass after pass ----

  /** The plain functions that start in [s, e) tile it: each runs to the next of them, or to
      the end. */
  ghost predicate Tiles(fs: Functions, s: Word, e: Word) {
    && s < e && s in PlainStarts(fs)
    && forall p :: p in PlainStarts(fs) && s <= p < e ==> fs[p].end == NextCut(PlainStarts(fs), p, e)
  }

  lemma NextCutUnique(cuts: set<Word>, x: int, e: int, n: int)
    requires x < n <= e && (n < e ==> n in cuts) && forall y: Word :: x < y < n ==> y !in cuts
    ensures NextCut(cuts, x, e) == n
  {
    NextCutIsNext(cuts, x, e);
    var r := NextCut(cuts, x, e);
    if r < e { var w: Word := r; assert w in cuts; }
  }

  /** Each address of the range is in exactly one of the functions that start in it. */
  lemma TilesOnce(fs: Functions, s: Word, e: Word, x: Word, p: Word)
    requires Tiles(fs, s, e) && s <= x < e && p in PlainStarts(fs) && s <= p < e
    ensures p <= x < fs[p].end <==> Some(p) == LastAt(PlainStarts(fs), x)
    ensures LastAt(PlainStarts(fs), x).Some? && s <= LastAt(PlainStarts(fs), x).value
  {
    hide PlainStarts;
    LastAtIsLast(PlainStarts(fs), x);
    NextCutIsNext(PlainStarts(fs), p, e);
    var n := NextCut(PlainStarts(fs), p, e);
    if n < e { var w: Word := n; assert w in PlainStarts(fs); }
  }

  /** Inside a tiled range a target falls into the piece of the last start before it. */
  lemma TargetInPiece(fs: Functions, s: Word, e: Word, t: Word, q: Word)
    requires Tiles(fs, s, e) && q in PlainStarts(fs) && s <= q < t < e && forall y: Word :: q < y <= t ==>
            y !in PlainStarts(fs)
    ensures ContainerOf(fs, t) == Some(q)
  {
    hide NextCut;
    LastAtIsLast(PlainStarts(fs), t);
    NextCutIsNext(PlainStarts(fs), q, e);
  }

  lemma CutsInPiece(fs: Functions, mid: set<Word>, s: Word, e: Word, q: Word, p: Word)
    requires Tiles(fs, s, e) && Consistent(fs) && q in PlainStarts(fs) && s <= q < e
            && (p == q || p in CutsOf(fs, mid, q))
    ensures q <= p < fs[q].end <= e
    ensures NextCut(CutsOf(fs, mid, q), p, fs[q].end) == NextCut(PlainStarts(fs) + mid, p, e)
  {
    hide ContainerOf, NextCut, PlainStarts, Consistent;
    CutsAre(fs, mid, q);
    PlainIs(fs, q);
    StartBelowEnd(fs, q);
    if p != q { ContainerHolds(fs, p); }
    NextCutIsNext(PlainStarts(fs), q, e);
    var end := fs[q].end;
    NextCutIsNext(CutsOf(fs, mid, q), p, end);
    var n := NextCut(CutsOf(fs, mid, q), p, end);
    forall y: Word | p < y < n ensures y !in PlainStarts(fs) + mid {
      if y in mid {
        TargetInPiece(fs, s, e, y, q);
      }
    }
    if n < e { var w: Word := n; assert w in PlainStarts(fs) + mid; }
    NextCutUnique(PlainStarts(fs) + mid, p, e, n);
  }

  lemma PlainIs(fs: Functions, s: Word)
    requires s in PlainStarts(fs)
    ensures s in fs && !fs[s].IsAlias()
  {
  }

  lemma PassedPlain(img: Image, fs: Functions, mid: set<Word>, r: Functions)
    requires img.End() < WORD_LIMIT && Consistent(fs) && Passed(img, fs, mid, r) && forall t :: t in mid ==> t !in fs
    ensures PlainStarts(r) == PlainStarts(fs) + mid
  {
    hide ContainerOf, NextCut, CutsOf;
    forall x | x in r ensures r[x].IsAlias() <==> x in fs && fs[x].IsAlias() {
      if x in mid {
        assert r[x] == Piece(img, fs, mid, x);
      }
    }
  }

  lemma PlainInside(fs: Functions)
    ensures PlainStarts(fs) <= fs.Keys
  {
  }

  lemma FreshIsNew(img: Image, fs: Functions, mid: set<Word>)
    requires Fresh(img, fs, mid)
    ensures forall t :: t in mid ==> t !in fs
  {
  }

  /** A pass keeps a tiled range tiled. */
  lemma PassKeepsTiles(img: Image, fs: Functions, mid: set<Word>, r: Functions, s: Word, e: Word)
    requires ImageOk(img) && Consistent(fs) && Fresh(img, fs, mid) && Passed(img, fs, mid, r) && Tiles(fs, s, e)
    ensures Tiles(r, s, e)
  {
    hide ContainerOf, NextCut, CutsOf, PlainStarts, Consistent, Fresh, Passed;
    FreshIsNew(img, fs, mid);
    PassedPlain(img, fs, mid, r);
    PlainIs(fs, s);
    var plain := PlainStarts(r);
    PlainInside(r);
    forall p | p in plain && p in r && s <= p < e ensures r[p].end == NextCut(plain, p, e) {
      LastAtIsLast(PlainStarts(fs), p);
      var q := LastAt(PlainStarts(fs), p).value;
      PlainIs(fs, q);
      StartBelowEnd(fs, q);
      if p != q {
        TargetInPiece(fs, s, e, p, q);
        CutsAre(fs, mid, q);
        ContainerHolds(fs, p);
      }
      CutsInPiece(fs, mid, s, e, q, p);
      PieceAt(img, fs, mid, r, q, p);
    }
  }

  lemma PassedKeys(img: Image, fs: Functions, mid: set<Word>, r: Functions)
    requires img.End() < WORD_LIMIT && Consistent(fs) && Passed(img, fs, mid, r)
    ensures r.Keys == fs.Keys + mid
  {
  }

  /** What was tiled is tiled. */
  ghost predicate TilesKept(fs: Functions, r: Functions) {
    forall s, e :: Tiles(fs, s, e) ==> Tiles(r, s, e)
  }

  lemma TilesKeptAtFirst(fs: Functions)
    ensures TilesKept(fs, fs)
  {
    hide Tiles;
  }

  lemma TilesKeptOn(img: Image, functions: Functions, fs: Functions, mid: set<Word>, r: Functions)
    requires ImageOk(img) && Consistent(fs) && Fresh(img, fs, mid) && Passed(img, fs, mid, r)
            && TilesKept(functions, fs)
    ensures TilesKept(functions, r)
  {
    hide Tiles, Consistent, Fresh, Passed;
    forall s, e | Tiles(functions, s, e) ensures Tiles(r, s, e) {
      PassKeepsTiles(img, fs, mid, r, s, e);
    }
  }

  /** The split loop.  Each pass makes known at least one more address of the image, so it
      ends; and though later passes scan only the graphs just rebuilt, at the end no graph
      has a target left that is neither its own block nor a function.  A range tiled by the
      functions that start in it stays so. */
  method SplitPrePass(img: Image, functions: Functions, graphs: map<Word, Cfg>)
    returns (fs: Functions, cfgs: map<Word, Cfg>)
    requires ImageOk(img) && Consistent(functions) && CfgsMatch(img, functions, graphs)
    ensures Consistent(fs) && CfgsMatch(img, fs, cfgs) && functions.Keys <= fs.Keys && graphs.Keys <= cfgs.Keys
    ensures fs.Keys - functions.Keys <= cfgs.Keys
    ensures forall s :: s in cfgs ==> Resolved(img, cfgs[s], fs.Keys)
    ensures TilesKept(functions, fs)
  {
    hide Consistent, Resolved, CfgsMatch, IsMid, Fresh, Candidates, Shortened, Piece, TilesKept, Passed;
    TilesKeptAtFirst(functions);
    fs, cfgs := functions, graphs;
    var known := fs.Keys;
    var mid := ScanCfgs(img, cfgs, cfgs.Keys, known);
    ScannedResolved(img, fs, cfgs, cfgs.Keys, mid);
    while mid != {}
      invariant Consistent(fs) && CfgsMatch(img, fs, cfgs) && functions.Keys <= fs.Keys && graphs.Keys <= cfgs.Keys
      invariant known == fs.Keys && fs.Keys - functions.Keys <= cfgs.Keys
      invariant Fresh(img, fs, mid) && mid <= Candidates(img) - known
      invariant forall s :: s in cfgs ==> Resolved(img, cfgs[s], known + mid)
      invariant TilesKept(functions, fs)
      decreases Candidates(img) - known
    {
      ghost var before, pending := known, mid;
      var r, affected := SplitPass(img, fs, mid);
      PassedConsistent(img, fs, mid, r);
      known := known + mid;
      var cfgs' := Rebuild(img, r, cfgs, affected);
      TilesKeptOn(img, functions, fs, mid, r);
      PassedKeys(img, fs, mid, r);
      RebuiltMatch(img, fs, r, cfgs, affected, cfgs');
      fs, cfgs := r, cfgs';
      mid := ScanCfgs(img, cfgs, affected, known);
      ScannedResolved(img, fs, cfgs, affected, mid);
      Smaller(Candidates(img), before, pending);
    }
    assert known + mid == known;
  }

  lemma Smaller(all: set<Word>, known: set<Word>, mid: set<Word>)
    requires mid <= all - known && mid != {}
    ensures all - (known + mid) < all - known
  {
    var t :| t in mid;
    assert t in all - known && t !in all - (known + mid);
  }

  /** In terms of blocks: on convergence every branch target, branch fall-through and jump
      target inside the image is a block of its own function or the start of a function. */
  lemma ConvergedTargets(img: Image, fs: Functions, cfgs: map<Word, Cfg>, s: Word, a: int, t: int)
    requires Consistent(fs) && CfgsMatch(img, fs, cfgs) && s in cfgs && Resolved(img, cfgs[s], fs.Keys)
    requires IsLeader(img, fs[s], a) && t in ExitTargets(BlockAt(img, fs[s], a).exit) && InImage(img, t) && t != 0
    ensures IsLeader(img, fs[s], t) || t in fs
  {
    hide IsLeader, BlockAt, CfgOf, Resolved, BlocksUpTo;
    var f := fs[s];
    CfgBlocks(img, f);
    LeadersFromMembers(img, f, f.WalkLo());
    OrderIsLeaders(img, f);
    LeaderBound(img, f, a);
    assert TargetOf(cfgs[s], t);
    ExitTargetAligned(img, f, a, t);
    ResolvedAt(img, cfgs[s], fs.Keys, t);
  }

  lemma OrderIsLeaders(img: Image, f: Function)
    ensures CfgOf(img, f).order == LeadersFrom(img, f, f.WalkLo())
  {
    hide BlocksUpTo;
  }

  lemma ResolvedAt(img: Image, cfg: Cfg, known: set<Word>, t: int)
    requires Resolved(img, cfg, known) && TargetOf(cfg, t)
    ensures !MidTarget(img, cfg, known, t)
  {
    hide TargetOf, MidTarget;
  }

  lemma ExitTargetAligned(img: Image, f: Function, a: int, t: int)
    requires f.Valid() && IsLeader(img, f, a) && t in ExitTargets(BlockAt(img, f, a).exit)
    ensures Aligned(t)
  {
    hide IsLeader, AnalyzeInstruction, BlockAt, BlockEnd, TransferAt;
    BlockShape(img, f, a);
    ExitKind(img, f, a);
    var b := BlockAt(img, f, a);
    BlockSpan(img, f, a);
    if b.exit.kind == Branch || b.exit.kind == Jump {
      TransferReads(img, b.exit.address);
      TargetAligned(b.exit.address, img.ReadWord(b.exit.address).value);
    }
  }

  lemma BlockSpan(img: Image, f: Function, a: int)
    ensures BlockAt(img, f, a).end == BlockEnd(img, f, a)
  {
  }

  lemma TransferReads(img: Image, c: int)
    requires TransferAt(img, c)
    ensures img.ReadWord(c).Some?
  {
  }

  // ---- what a pass does to the ranges ----

  /** The pieces of a split function tile its old range: address `x` of it lies in exactly
      one of them, and they keep its data mark. */
  lemma SplitTiles(img: Image, fs: Functions, mid: set<Word>, r: Functions, s: Word, x: Word, q: Word)
    requires img.End() < WORD_LIMIT && Consistent(fs) && Passed(img, fs, mid, r)
    requires s in fs && !fs[s].IsAlias() && s <= x < fs[s].end
    ensures var pieces := CutsOf(fs, mid, s) + {s};
            && (q in pieces ==> q in r && r[q].isData == fs[s].isData)
            && (q in pieces && r[q].start <= x < r[q].end <==> Some(q) == LastAt(pieces, x))
            && LastAt(pieces, x).Some?
  {
    hide ContainerOf, NextCut;
    StartBelowEnd(fs, s);
    var cuts := CutsOf(fs, mid, s);
    if cuts != {} {
      CutFacts(fs, mid, s);
    }
    LastAtIsLast(cuts + {s}, x);
    PiecesTile(cuts, s, fs[s].end, x, q);
    if q in cuts + {s} {
      PieceAt(img, fs, mid, r, s, q);
    } else {
      assert Some(q) != LastAt(cuts + {s}, x);
    }
  }

  lemma PieceAt(img: Image, fs: Functions, mid: set<Word>, r: Functions, s: Word, q: Word)
    requires img.End() < WORD_LIMIT && Consistent(fs) && Passed(img, fs, mid, r)
    requires s in fs && !fs[s].IsAlias() && s < fs[s].end && fs[s].start == s
    requires q == s || (q in CutsOf(fs, mid, s) && s < q < fs[s].end)
    ensures q in r && r[q].start == q && r[q].end == NextCut(CutsOf(fs, mid, s), q, fs[s].end)
            && r[q].isData == fs[s].isData
  {
    hide ContainerOf, NextCut;
    if q in CutsOf(fs, mid, s) {
      assert q in mid && ContainerOf(fs, q) == Some(s);
      if q == s {
        ContainerHolds(fs, q);
      }
    }
  }

  /** Targets in one gap are not kept apart: each runs to the next function, so the earlier
      piece covers the later one. */
  lemma GapPiecesOverlap(img: Image, fs: Functions, mid: set<Word>, r: Functions, t1: Word, t2: Word)
    requires ImageOk(img) && Consistent(fs) && Fresh(img, fs, mid) && Passed(img, fs, mid, r)
    requires t1 in mid && t2 in mid && t1 < t2 && ContainerOf(fs, t1) == None == ContainerOf(fs, t2)
    requires forall x: Word :: t1 < x <= t2 ==> x !in PlainStarts(fs)
    ensures r[t1].end == r[t2].end && r[t1].start < r[t2].start < r[t1].end
  {
    hide ContainerOf, PlainStarts;
    NextCutIsNext(PlainStarts(fs), t1, img.End());
    NextCutIsNext(PlainStarts(fs), t2, img.End());
    GapPiece(img, fs, mid, t1);
    GapPiece(img, fs, mid, t2);
  }
}
