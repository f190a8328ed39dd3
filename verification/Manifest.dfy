/** Which byte ranges a function's blocks cover, merged (generate_ranges_manifest). */
module Manifest {
  import opened Words
  import opened ControlFlow

  // ---- merging intervals ----

  datatype Interval = Interval(lo: int, hi: int)

  predicate Covered(iv: seq<Interval>, x: int) {
    exists i :: 0 <= i < |iv| && iv[i].lo <= x < iv[i].hi
  }

  /** Nonempty intervals in order with a real gap between neighbours. */
  predicate Separated(m: seq<Interval>) {
    && (forall i :: 0 <= i < |m| ==> m[i].lo < m[i].hi)
    && (forall i :: 0 <= i < |m| - 1 ==> m[i].hi < m[i + 1].lo)
  }

  predicate SortedByStart(iv: seq<Interval>) {
    forall i :: 0 <= i < |iv| - 1 ==> iv[i].lo <= iv[i + 1].lo
  }

  function InsertInterval(iv: seq<Interval>, x: Interval): (r: seq<Interval>)
    requires SortedByStart(iv)
    ensures SortedByStart(r) && multiset(r) == multiset(iv) + multiset{x}
    ensures r != [] && (r[0] == x || (iv != [] && r[0] == iv[0]))
  {
    if iv == [] then [x]
    else if x.lo <= iv[0].lo then [x] + iv
    else
      assert iv == [iv[0]] + iv[1..];
      [iv[0]] + InsertInterval(iv[1..], x)
  }

  /** std::sort, as far as the merge needs it. */
  function SortIntervals(iv: seq<Interval>): (r: seq<Interval>)
    ensures SortedByStart(r) && multiset(r) == multiset(iv)
  {
    if iv == [] then []
    else
      assert iv == [iv[0]] + iv[1..];
      InsertInterval(SortIntervals(iv[1..]), iv[0])
  }

  lemma SameCover(a: seq<Interval>, b: seq<Interval>, x: int)
    requires multiset(a) == multiset(b)
    ensures Covered(a, x) ==> Covered(b, x)
  {
    if Covered(a, x) {
      var i :| 0 <= i < |a| && a[i].lo <= x < a[i].hi;
      assert a[i] in multiset(a);
      assert a[i] in b;
    }
  }

  lemma CoveredOneMore(iv: seq<Interval>, k: nat, x: int)
    requires k < |iv|
    ensures Covered(iv[..k + 1], x) <==> Covered(iv[..k], x) || iv[k].lo <= x < iv[k].hi
  {
    assert iv[..k + 1] == iv[..k] + [iv[k]];
    if Covered(iv[..k], x) {
      var i :| 0 <= i < k && iv[..k][i].lo <= x < iv[..k][i].hi;
      assert iv[..k + 1][i] == iv[..k][i];
    }
    assert iv[..k + 1][k] == iv[k];
  }

  /** Growing the last interval. */
  lemma CoveredLast(m: seq<Interval>, hi: int, x: int)
    requires m != [] && m[|m| - 1].hi <= hi
    ensures var m' := m[|m| - 1 := m[|m| - 1].(hi := hi)];
            Covered(m', x) <==> Covered(m, x) || (m[|m| - 1].hi <= x < hi && m[|m| - 1].lo <= x)
  {
    var n := |m| - 1;
    var m' := m[n := m[n].(hi := hi)];
    if Covered(m', x) {
      var i :| 0 <= i < |m'| && m'[i].lo <= x < m'[i].hi;
      if i != n || x < m[n].hi {
        assert m[i].lo <= x < m[i].hi;
      }
    }
    if Covered(m, x) {
      var i :| 0 <= i < |m| && m[i].lo <= x < m[i].hi;
      assert m'[i].lo <= x < m'[i].hi;
    }
    assert m'[n].lo == m[n].lo && m'[n].hi == hi;
  }

  lemma CoveredAppend(m: seq<Interval>, v: Interval, x: int)
    ensures Covered(m + [v], x) <==> Covered(m, x) || v.lo <= x < v.hi
  {
    assert (m + [v])[..|m|] == m && (m + [v])[..|m| + 1] == m + [v];
    CoveredOneMore(m + [v], |m|, x);
  }

  /** One interval, in order, into the merged list. */
  function MergeOne(m: seq<Interval>, r: Interval): seq<Interval> {
    if m != [] && r.lo <= m[|m| - 1].hi then
      (if r.hi > m[|m| - 1].hi then m[|m| - 1 := m[|m| - 1].(hi := r.hi)] else m)
    else m + [r]
  }

  lemma MergeOneSeparated(m: seq<Interval>, r: Interval)
    requires Separated(m) && r.lo < r.hi && (m != [] ==> m[|m| - 1].lo <= r.lo)
    ensures Separated(MergeOne(m, r)) && MergeOne(m, r) != []
    ensures MergeOne(m, r)[|MergeOne(m, r)| - 1].lo <= r.lo
  {
  }

  lemma MergeOneCovers(m: seq<Interval>, r: Interval, x: int)
    requires r.lo < r.hi && (m != [] ==> m[|m| - 1].lo <= r.lo)
    ensures Covered(MergeOne(m, r), x) <==> Covered(m, x) || r.lo <= x < r.hi
  {
    hide Covered;
    if m != [] && r.lo <= m[|m| - 1].hi {
      CoversLast(m, x);
      if r.hi > m[|m| - 1].hi {
        CoveredLast(m, r.hi, x);
      }
    } else {
      CoveredAppend(m, r, x);
    }
  }

  /** The merge: overlapping and touching intervals become one; exactly the union stays. */
  method MergeIntervals(input: seq<Interval>) returns (m: seq<Interval>)
    requires forall i :: 0 <= i < |input| ==> input[i].lo < input[i].hi
    ensures Separated(m) && forall x :: Covered(m, x) <==> Covered(input, x)
  {
    hide Covered, SortedByStart, Separated, MergeOne;
    var iv := SortIntervals(input);
    m := [];
    NothingSeparated();
    forall x ensures !Covered(m, x) { NothingCovered(x); }
    assert iv[..0] == [];
    var k := 0;
    while k < |iv|
      invariant 0 <= k <= |iv|
      invariant Separated(m) && (k == 0 ==> m == [])
      invariant m != [] ==> k > 0 && m[|m| - 1].lo <= iv[k - 1].lo
      invariant forall x :: Covered(m, x) <==> Covered(iv[..k], x)
    {
      var r := iv[k];
      assert r in multiset(iv);
      assert r in input;
      StartsInOrder(iv, k);
      MergeOneSeparated(m, r);
      var m' := MergeOne(m, r);
      forall x ensures Covered(m', x) <==> Covered(iv[..k + 1], x) {
        CoveredOneMore(iv, k, x);
        MergeOneCovers(m, r, x);
      }
      m := m';
      k := k + 1;
    }
    assert iv[..k] == iv;
    forall x ensures Covered(iv, x) <==> Covered(input, x) {
      SameCover(iv, input, x);
      SameCover(input, iv, x);
    }
  }

  lemma NothingSeparated()
    ensures Separated([])
  {
  }

  lemma NothingCovered(x: int)
    ensures !Covered([], x)
  {
  }

  lemma CoversLast(m: seq<Interval>, x: int)
    requires m != []
    ensures m[|m| - 1].lo <= x < m[|m| - 1].hi ==> Covered(m, x)
  {
  }

  lemma StartsInOrder(iv: seq<Interval>, k: nat)
    requires SortedByStart(iv) && k < |iv|
    ensures k > 0 ==> iv[k - 1].lo <= iv[k].lo
  {
    if k > 0 {
      assert iv[k - 1].lo <= iv[k - 1 + 1].lo;
    }
  }

  /** Separated intervals are determined by what they cover; here, one stretch. */
  lemma OneStretch(m: seq<Interval>, lo: int, hi: int)
    requires Separated(m) && lo < hi && forall x :: Covered(m, x) <==> lo <= x < hi
    ensures m == [Interval(lo, hi)]
  {
    assert Covered(m, lo);
    var i :| 0 <= i < |m| && m[i].lo <= lo < m[i].hi;
    StartCovered(m, i);
    GapAfter(m, i);
    assert m[i] == Interval(lo, hi);
    if |m| > 1 {
      var j := if i == 0 then 1 else 0;
      StartCovered(m, j);
      Apart(m, j, i);
    }
    assert m == [m[i]];
  }

  lemma StartCovered(m: seq<Interval>, i: nat)
    requires Separated(m) && i < |m|
    ensures Covered(m, m[i].lo) && Covered(m, m[i].hi - 1)
  {
    assert m[i].lo <= m[i].lo < m[i].hi && m[i].lo <= m[i].hi - 1 < m[i].hi;
  }

  /** The address behind a separated interval is not covered. */
  lemma GapAfter(m: seq<Interval>, i: nat)
    requires Separated(m) && i < |m|
    ensures !Covered(m, m[i].hi)
  {
    forall j | 0 <= j < |m| ensures !(m[j].lo <= m[i].hi < m[j].hi) {
      if j != i { Apart(m, j, i); }
    }
  }

  lemma {:induction false} Apart(m: seq<Interval>, i: nat, j: nat)
    requires Separated(m) && i < |m| && j < |m| && i != j
    ensures if i < j then m[i].hi < m[j].lo else m[j].hi < m[i].lo
    decreases if i < j then j - i else i - j
  {
    if i + 1 < j {
      Apart(m, i, j - 1);
    } else if j + 1 < i {
      Apart(m, i - 1, j);
    }
  }

  // ---- the ranges of a function's graph ----

  /** A block's bytes, its last instruction included. */
  function BlockInterval(b: BasicBlock): Interval {
    Interval(b.start, b.end + 4)
  }

  method BlockIntervals(img: Image, f: Function) returns (iv: seq<Interval>)
    requires f.Valid()
    ensures forall x :: x in iv <==> exists a :: a in Leaders(img, f) && x == BlockInterval(BlockAt(img, f, a))
    ensures forall i :: 0 <= i < |iv| ==> iv[i].lo < iv[i].hi
  {
    hide BlockAt, Leaders, IsLeader;
    var order := Leaders(img, f);
    iv := [];
    var k := 0;
    while k < |order|
      invariant 0 <= k <= |order|
      invariant forall x :: x in iv <==> exists a :: a in order[..k] && x == BlockInterval(BlockAt(img, f, a))
      invariant forall i :: 0 <= i < |iv| ==> iv[i].lo < iv[i].hi
    {
      assert order[..k + 1] == order[..k] + [order[k]];
      LeaderInRange(img, f, order[k]);
      BlockIsNonempty(img, f, order[k]);
      iv := iv + [BlockInterval(BlockAt(img, f, order[k]))];
      k := k + 1;
    }
    assert order[..k] == order;
  }

  lemma BlockIsNonempty(img: Image, f: Function, a: int)
    requires f.Valid() && IsLeader(img, f, a)
    ensures BlockAt(img, f, a).start == a && BlockAt(img, f, a).end == BlockEnd(img, f, a) >= a
  {
    hide IsLeader;
    BlockShape(img, f, a);
  }

  /** The bytes of all blocks are those of the function. */
  lemma BlocksCoverFunction(img: Image, f: Function, iv: seq<Interval>, x: int)
    requires f.Valid() && forall v :: v in iv <==>
            exists a :: a in Leaders(img, f) && v == BlockInterval(BlockAt(img, f, a))
    ensures Covered(iv, x) <==> f.InRange(x)
  {
    hide IsLeader, BlockAt, BlockStart, BlockEnd, LeadersFrom;
    LeadersFromMembers(img, f, f.WalkLo());
    if f.InRange(x) {
      var y := x - x % 4;
      var a := BlockStart(img, f, y);
      BlockStartIsLast(img, f, y);
      BlocksTile(img, f, y, a);
      BlockIsNonempty(img, f, a);
      BlockShape(img, f, a);
      assert a in Leaders(img, f);
      var v := BlockInterval(BlockAt(img, f, a));
      assert v in iv;
      var i :| 0 <= i < |iv| && iv[i] == v;
      assert iv[i].lo <= x < iv[i].hi;
    }
    if Covered(iv, x) {
      var i :| 0 <= i < |iv| && iv[i].lo <= x < iv[i].hi;
      assert iv[i] in iv;
      var a :| a in Leaders(img, f) && iv[i] == BlockInterval(BlockAt(img, f, a));
      LeaderInRange(img, f, a);
      BlockIsNonempty(img, f, a);
      BlockShape(img, f, a);
    }
  }

  /** A function's entry in the manifest: since its blocks tile it, always one range, the
      whole function (its host, for an alias). */
  method FunctionRanges(img: Image, f: Function) returns (m: seq<Interval>)
    requires f.Valid()
    ensures m == [Interval(f.WalkLo(), f.end)]
  {
    hide BlockAt, Leaders, IsLeader, Covered, Separated;
    var iv := BlockIntervals(img, f);
    m := MergeIntervals(iv);
    forall x ensures Covered(m, x) <==> f.InRange(x) {
      BlocksCoverFunction(img, f, iv, x);
    }
    OneStretch(m, f.WalkLo(), f.end);
  }
}
