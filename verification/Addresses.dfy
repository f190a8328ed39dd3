/** Sets of addresses looked at in order: the next member above an address, the last one at
    or below it, and the members as an ascending list. */
module Addresses {
  import opened Words

  /** The greatest member at or below `t`. */
  function LastAt(starts: set<Word>, t: Word): Option<Word>
    decreases t
  {
    if t in starts then Some(t) else if t == 0 then None else LastAt(starts, t - 1)
  }

  /** The least member above `x` and below `e`, else `e`. */
  function NextCut(cuts: set<Word>, x: int, e: int): (r: int)
    ensures x < e ==> x < r <= e
    decreases e - x
  {
    if x + 1 >= e then e else if x + 1 in cuts then x + 1 else NextCut(cuts, x + 1, e)
  }

  lemma {:induction false} LastAtIsLast(starts: set<Word>, t: Word)
    ensures match LastAt(starts, t)
            case Some(s) => s <= t && s in starts && forall x: Word :: s < x <= t ==> x !in starts
            case None => forall x: Word :: x <= t ==> x !in starts
    decreases t
  {
    if t > 0 && t !in starts {
      LastAtIsLast(starts, t - 1);
    }
  }

  lemma {:induction false} NextCutIsNext(cuts: set<Word>, x: int, e: int)
    requires x < e
    ensures var r := NextCut(cuts, x, e);
            x < r <= e && (r < e ==> r in cuts) && forall y :: x < y < r ==> y !in cuts
    decreases e - x
  {
    if x + 1 < e && x + 1 !in cuts {
      NextCutIsNext(cuts, x + 1, e);
    }
  }

  lemma {:induction false} NoCut(x: int, e: int)
    requires x < e
    ensures NextCut({}, x, e) == e
    decreases e - x
  {
    if x + 1 < e {
      NoCut(x + 1, e);
    }
  }

  /** The members in [lo, hi), ascending. */
  function Ascending(s: set<int>, lo: int, hi: int): seq<int>
    decreases hi - lo
  {
    if lo >= hi then [] else (if lo in s then [lo] else []) + Ascending(s, lo + 1, hi)
  }

  lemma {:induction false} AscendingMembers(s: set<int>, lo: int, hi: int)
    ensures forall a :: a in Ascending(s, lo, hi) <==> a in s && lo <= a < hi
    decreases hi - lo
  {
    if lo < hi {
      AscendingMembers(s, lo + 1, hi);
    }
  }

  lemma {:induction false} AscendingLeast(s: set<int>, lo: int, hi: int)
    ensures forall a :: a in Ascending(s, lo, hi) ==> Ascending(s, lo, hi)[0] <= a
    decreases hi - lo
  {
    AscendingMembers(s, lo, hi);
    if lo < hi {
      AscendingLeast(s, lo + 1, hi);
    }
  }

  function Elements(s: seq<int>): set<int> {
    set a | a in s
  }
}
