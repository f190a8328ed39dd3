/** The cache of compiled overlays: which captures the main loop of the overlay compiler
    skips, and why a skipped one lacks nothing.

    Recompiling, auditing and compiling are outcomes given with the capture; files do not
    disappear by themselves. */
module CoverageCache {

  type Id = (nat, nat)

  /** A region's start and the checksum of its bytes name a DLL and its manifest. */
  type Stem = (nat, nat)

  /** A capture as the loop sees it: whether it has roots, which steps succeed, and the
      identities its recompilation yields. */
  datatype Capture = Capture(stem: Stem, hasRoots: bool, recompiles: bool, passesAudit: bool, ids: set<Id>,
    compiles: bool)

  datatype Verdict = NoRoots | DllExists | RecompileFailed | AuditFailed | AllCovered | CompileFailed | Built

  /** Files on disk, and the coverage kept in memory per region. */
  datatype Store = Store(dlls: set<Stem>, manifests: map<Stem, set<Id>>, coverage: map<nat, set<Id>>) {
    /** The identities the region's manifests list. */
    function Provided(region: nat): set<Id> {
      set k, i | k in manifests && k.0 == region && i in manifests[k] :: i
    }

    ghost predicate Valid() {
      && manifests.Keys <= dlls
      && forall r :: r in coverage ==> coverage[r] == Provided(r)
    }

    /** The region's coverage: from memory, or from disk the first time. */
    function CoverageOf(region: nat): set<Id> {
      if region in coverage then coverage[region] else Provided(region)
    }
  }

  function VerdictOf(s: Store, c: Capture, force: bool): Verdict {
    if !c.hasRoots then NoRoots
    else if c.stem in s.dlls && !force then DllExists
    else if !c.recompiles then RecompileFailed
    else if !c.passesAudit then AuditFailed
    else if c.ids != {} && c.ids <= s.CoverageOf(c.stem.0) && !force then AllCovered
    else if !c.compiles then CompileFailed
    else Built
  }

  function Next(s: Store, c: Capture, force: bool): Store {
    var region := c.stem.0;
    var loaded := s.(coverage := s.coverage[region := s.CoverageOf(region)]);
    match VerdictOf(s, c, force)
    case AllCovered => loaded
    case CompileFailed => loaded
    case Built =>
      if c.ids == {} then loaded.(dlls := s.dlls + {c.stem})
      else Store(s.dlls + {c.stem}, s.manifests[c.stem := c.ids],
        loaded.coverage[region := s.CoverageOf(region) + c.ids])
    case _ => s
  }

  /** The loop's state, updated capture by capture. */
  class OverlayCache {
    var dlls: set<Stem>
    var manifests: map<Stem, set<Id>>
    var coverage: map<nat, set<Id>>

    function State(): Store
      reads this
    {
      Store(dlls, manifests, coverage)
    }

    constructor (dlls: set<Stem>, manifests: map<Stem, set<Id>>)
      ensures State() == Store(dlls, manifests, map[])
    {
      this.dlls, this.manifests, this.coverage := dlls, manifests, map[];
    }

    /** load_region_coverage over the manifests on disk. */
    method LoadCoverage(region: nat) returns (covered: set<Id>)
      ensures covered == State().Provided(region)
    {
      covered := {};
      var todo := manifests.Keys;
      while todo != {}
        invariant todo <= manifests.Keys
        invariant covered == set k, i | k in manifests && k !in todo && k.0 == region && i in manifests[k] :: i
        decreases |todo|
      {
        var k :| k in todo;
        todo := todo - {k};
        if k.0 == region {
          covered := covered + manifests[k];
        }
      }
    }

    /** One turn of the loop. */
    method Process(c: Capture, force: bool) returns (v: Verdict)
      modifies this
      ensures State() == Next(old(State()), c, force) && v == VerdictOf(old(State()), c, force)
    {
      if !c.hasRoots {
        return NoRoots;
      }
      if c.stem in dlls && !force {
        return DllExists;
      }
      if !c.recompiles {
        return RecompileFailed;
      }
      if !c.passesAudit {
        return AuditFailed;
      }
      var region := c.stem.0;
      var covered;
      if region in coverage {
        covered := coverage[region];
      } else {
        covered := LoadCoverage(region);
      }
      assert covered == old(State()).CoverageOf(region);
      coverage := coverage[region := covered];
      if c.ids != {} && c.ids <= covered && !force {
        return AllCovered;
      }
      if !c.compiles {
        return CompileFailed;
      }
      dlls := dlls + {c.stem};
      if c.ids != {} {
        manifests := manifests[c.stem := c.ids];
        coverage := coverage[region := covered + c.ids];
      }
      return Built;
    }
  }

  // ---- any sequence of captures ----

  /** Nothing served, built or remembered is lost. */
  ghost predicate Grows(s: Store, s': Store) {
    && s.dlls <= s'.dlls && s.manifests.Keys <= s'.manifests.Keys && s.coverage.Keys <= s'.coverage.Keys
    && forall r :: s.Provided(r) <= s'.Provided(r)
  }

  lemma WrittenManifest(s: Store, k: Stem, ids: set<Id>, r: nat)
    requires k !in s.manifests
    ensures s.(manifests := s.manifests[k := ids]).Provided(r) == s.Provided(r) + if k.0 == r then ids else {}
  {
    var s' := s.(manifests := s.manifests[k := ids]);
    forall i ensures i in s'.Provided(r) <==> i in s.Provided(r) + if k.0 == r then ids else {} {
      if i in s'.Provided(r) {
        var j :| j in s'.manifests && j.0 == r && i in s'.manifests[j];
        assert j == k || j in s.manifests;
      }
      if i in s.Provided(r) {
        var j :| j in s.manifests && j.0 == r && i in s.manifests[j];
        assert j in s'.manifests && i in s'.manifests[j];
      }
      if k.0 == r && i in ids {
        assert k in s'.manifests && i in s'.manifests[k];
      }
    }
  }

  lemma ProvidedByManifests(s: Store, s': Store, r: nat)
    requires s.manifests == s'.manifests
    ensures s.Provided(r) == s'.Provided(r)
  {
  }

  /** One capture, without --force: the coverage in memory stays the union of the region's
      manifests, nothing is lost, and a capture skipped as covered or built is served. */
  lemma NextIsSafe(s: Store, c: Capture)
    requires s.Valid()
    ensures Next(s, c, false).Valid() && Grows(s, Next(s, c, false))
    ensures VerdictOf(s, c, false) == AllCovered || VerdictOf(s, c, false) == Built
            ==> c.ids <= Next(s, c, false).Provided(c.stem.0)
  {
    hide Store.Provided;
    var s' := Next(s, c, false);
    var v := VerdictOf(s, c, false);
    if v == Built && c.ids != {} {
      assert c.stem !in s.manifests;
      var written := s.(manifests := s.manifests[c.stem := c.ids]);
      forall r ensures s'.Provided(r) == s.Provided(r) + if c.stem.0 == r then c.ids else {} {
        WrittenManifest(s, c.stem, c.ids, r);
        ProvidedByManifests(s', written, r);
      }
    } else {
      forall r ensures s'.Provided(r) == s.Provided(r) {
        ProvidedByManifests(s, s', r);
      }
    }
  }

  function Run(s: Store, captures: seq<Capture>): Store
    decreases |captures|
  {
    if captures == [] then s else Run(Next(s, captures[0], false), captures[1..])
  }

  lemma {:induction false} RunIsSafe(s: Store, captures: seq<Capture>)
    requires s.Valid()
    ensures Run(s, captures).Valid() && Grows(s, Run(s, captures))
    decreases |captures|
  {
    hide Store.Valid, Next, Store.Provided;
    if captures != [] {
      NextIsSafe(s, captures[0]);
      RunIsSafe(Next(s, captures[0], false), captures[1..]);
    }
  }

  lemma {:induction false} RunSplit(s: Store, a: seq<Capture>, b: seq<Capture>)
    ensures Run(s, a + b) == Run(Run(s, a), b)
    decreases |a|
  {
    hide Next;
    if a == [] {
      assert a + b == b;
    } else {
      assert (a + b)[0] == a[0] && (a + b)[1..] == a[1..] + b;
      RunSplit(Next(s, a[0], false), a[1..], b);
    }
  }

  /** Over any sequence of captures: whichever was skipped as covered still has every one of
      its identities in a manifest at the end, and that manifest has its DLL. */
  lemma SkippedStaysServed(s: Store, captures: seq<Capture>, n: nat, id: Id)
    requires s.Valid() && n < |captures|
    requires VerdictOf(Run(s, captures[..n]), captures[n], false) == AllCovered && id in captures[n].ids
    ensures exists k :: k in Run(s, captures).manifests && k.0 == captures[n].stem.0
                        && id in Run(s, captures).manifests[k] && k in Run(s, captures).dlls
  {
    hide Next, Run, VerdictOf;
    var before := Run(s, captures[..n]);
    var after := Next(before, captures[n], false);
    RunIsSafe(s, captures[..n]);
    NextIsSafe(before, captures[n]);
    RunIsSafe(after, captures[n + 1..]);
    RunUnfold(before, captures, n);
    assert captures == captures[..n] + captures[n..];
    RunSplit(s, captures[..n], captures[n..]);
    var end := Run(s, captures);
    assert id in end.Provided(captures[n].stem.0);
  }

  lemma RunUnfold(s: Store, captures: seq<Capture>, n: nat)
    requires n < |captures|
    ensures Run(s, captures[n..]) == Run(Next(s, captures[n], false), captures[n + 1..])
  {
    hide Next;
    assert captures[n..][0] == captures[n] && captures[n..][1..] == captures[n + 1..];
  }

  // ---- forced rebuilds ----

  /** The region's identities apart from one manifest. */
  function Others(s: Store, k: Stem): set<Id> {
    set j, i | j in s.manifests && j != k && j.0 == k.0 && i in s.manifests[j] :: i
  }

  lemma RewrittenManifest(s: Store, k: Stem, ids: set<Id>)
    ensures s.(manifests := s.manifests[k := ids]).Provided(k.0) == Others(s, k) + ids
    ensures k in s.manifests ==> s.Provided(k.0) == Others(s, k) + s.manifests[k]
  {
    var s' := s.(manifests := s.manifests[k := ids]);
    forall i ensures i in s'.Provided(k.0) <==> i in Others(s, k) + ids {
      if i in s'.Provided(k.0) {
        var j :| j in s'.manifests && j.0 == k.0 && i in s'.manifests[j];
        assert j == k || j in s.manifests;
      }
      if i in Others(s, k) {
        var j :| j in s.manifests && j != k && j.0 == k.0 && i in s.manifests[j];
        assert j in s'.manifests && i in s'.manifests[j];
      }
      if i in ids {
        assert k in s'.manifests && i in s'.manifests[k];
      }
    }
    if k in s.manifests {
      forall i ensures i in s.Provided(k.0) <==> i in Others(s, k) + s.manifests[k] {
        if i in s.Provided(k.0) {
          var j :| j in s.manifests && j.0 == k.0 && i in s.manifests[j];
        }
        if i in s.manifests[k] {
          assert k in s.manifests && k.0 == k.0;
        }
      }
    }
  }

  /** With --force a manifest is overwritten; the coverage in memory is then still right just
      when what the old manifest listed is in the new one or in another. */
  lemma ForcedRebuild(s: Store, c: Capture)
    requires s.Valid() && VerdictOf(s, c, true) == Built && c.ids != {} && c.stem in s.manifests
    ensures var s' := Next(s, c, true);
            s'.coverage[c.stem.0] == s'.Provided(c.stem.0) <==> s.manifests[c.stem] <= Others(s, c.stem) + c.ids
  {
    hide Store.Provided, Others;
    var s' := Next(s, c, true);
    RewrittenManifest(s, c.stem, c.ids);
    ProvidedByManifests(s', s.(manifests := s.manifests[c.stem := c.ids]), c.stem.0);
  }
}
