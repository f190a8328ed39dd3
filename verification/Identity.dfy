/** The identity of a compiled overlay function: its entry and the CRC of its code bytes
    (the second half of parse_overlay_func_ids). */
module Identity {
  import opened Words
  import opened Crc

  /** A code range of the recompiler's manifest, and a function with its ranges. */
  datatype CodeRange = CodeRange(lo: int, len: nat)
  datatype Func = Func(entry: int, ranges: seq<CodeRange>)

  datatype FuncId = FuncId(ev: Word, crc: bv32, ranges: seq<CodeRange>)

  /** Physical address, and the cached segment's address of an entry. */
  function Phys(a: int): int {
    a % 0x2000_0000
  }

  function Virtual(a: int): Word {
    Phys(a) + 0x8000_0000
  }

  /** The captured bytes of a range; none when it leaves the capture. */
  function Slice(data: Bytes, load: int, r: CodeRange): Option<Bytes> {
    var off := Phys(r.lo) - Phys(load);
    if off < 0 || off + r.len > |data| then None else Some(data[off..off + r.len])
  }

  function Slices(data: Bytes, load: int, ranges: seq<CodeRange>): Option<seq<Bytes>> {
    if ranges == [] then Some([])
    else
      var first := Slice(data, load, ranges[0]);
      var rest := Slices(data, load, ranges[1..]);
      if first == None || rest == None then None else Some([first.value] + rest.value)
  }

  /** No identity without code, or with code outside the capture. */
  function FuncIdOf(data: Bytes, load: int, f: Func): Option<FuncId> {
    if f.ranges == [] then None
    else
      var chunks := Slices(data, load, f.ranges);
      if chunks == None then None else Some(FuncId(Virtual(f.entry), ChainAll(chunks.value, 0), f.ranges))
  }

  function FuncIds(data: Bytes, load: int, funcs: seq<Func>): seq<FuncId> {
    if funcs == [] then []
    else
      var first := FuncIdOf(data, load, funcs[0]);
      (if first.Some? then [first.value] else []) + FuncIds(data, load, funcs[1..])
  }

  /** What the cache goes by. */
  function Keys(ids: seq<FuncId>): set<(Word, bv32)> {
    set i | i in ids :: (i.ev, i.crc)
  }

  lemma SlicesUnfold(data: Bytes, load: int, ranges: seq<CodeRange>, k: nat)
    requires k < |ranges|
    ensures Slices(data, load, ranges[k..])
            == var first := Slice(data, load, ranges[k]);
               var rest := Slices(data, load, ranges[k + 1..]);
               if first == None || rest == None then None else Some([first.value] + rest.value)
  {
    assert ranges[k..][0] == ranges[k] && ranges[k..][1..] == ranges[k + 1..];
  }

  /** The CRC of one function's ranges, chained; stops at a range outside the capture. */
  method HashRanges(data: Bytes, load: int, ranges: seq<CodeRange>) returns (crc: bv32, ok: bool)
    ensures ok <==> Slices(data, load, ranges).Some?
    ensures ok ==> crc == ChainAll(Slices(data, load, ranges).value, 0)
  {
    hide Chain, Slice;
    crc, ok := 0, true;
    var k := 0;
    assert ranges[0..] == ranges;
    while k < |ranges| && ok
      invariant 0 <= k <= |ranges|
      invariant !ok ==> Slices(data, load, ranges) == None
      invariant ok ==> (Slices(data, load, ranges).Some? <==> Slices(data, load, ranges[k..]).Some?)
      invariant ok && Slices(data, load, ranges).Some? ==>
                  ChainAll(Slices(data, load, ranges).value, 0) == ChainAll(Slices(data, load, ranges[k..]).value, crc)
      decreases |ranges| - k, if ok then 1 else 0
    {
      SlicesUnfold(data, load, ranges, k);
      var chunk := Slice(data, load, ranges[k]);
      if chunk == None {
        ok := false;
      } else {
        ghost var rest := Slices(data, load, ranges[k + 1..]);
        if rest.Some? {
          assert ([chunk.value] + rest.value)[1..] == rest.value;
        }
        crc := Chain(chunk.value, crc);
        k := k + 1;
      }
    }
    if ok {
      assert ranges[k..] == [];
    }
  }

  lemma IdsGoOn(data: Bytes, load: int, funcs: seq<Func>, k: nat)
    requires k < |funcs|
    ensures FuncIds(data, load, funcs[k..])
            == (var first := FuncIdOf(data, load, funcs[k]); if first.Some? then [first.value] else [])
               + FuncIds(data, load, funcs[k + 1..])
  {
    hide FuncIdOf;
    assert funcs[k..][0] == funcs[k] && funcs[k..][1..] == funcs[k + 1..];
  }

  lemma NoIdsLeft(data: Bytes, load: int)
    ensures FuncIds(data, load, []) == []
  {
  }

  /** The identity of one function, if it has one. */
  method ComputeFuncId(data: Bytes, load: int, f: Func) returns (id: Option<FuncId>)
    ensures id == FuncIdOf(data, load, f)
  {
    hide Slices, ChainAll;
    id := None;
    if f.ranges != [] {
      var crc, ok := HashRanges(data, load, f.ranges);
      if ok {
        id := Some(FuncId(Virtual(f.entry), crc, f.ranges));
      }
    }
  }

  method ComputeFuncIds(data: Bytes, load: int, funcs: seq<Func>) returns (ids: seq<FuncId>)
    ensures ids == FuncIds(data, load, funcs)
  {
    hide FuncIds, FuncIdOf;
    ids := [];
    var k := 0;
    assert funcs[0..] == funcs;
    while k < |funcs|
      invariant 0 <= k <= |funcs|
      invariant ids + FuncIds(data, load, funcs[k..]) == FuncIds(data, load, funcs)
    {
      IdsGoOn(data, load, funcs, k);
      var id := ComputeFuncId(data, load, funcs[k]);
      if id.Some? {
        ids := ids + [id.value];
      }
      k := k + 1;
    }
    NoIdsLeft(data, load);
    assert funcs[k..] == [];
  }

  // ---- what identities depend on ----

  /** Where a range lies in a capture. */
  predicate Covers(load: int, r: CodeRange, x: int) {
    Phys(r.lo) - Phys(load) <= x < Phys(r.lo) - Phys(load) + r.len
  }

  /** Byte `x` of a capture belongs to the code of some function. */
  ghost predicate IsCode(load: int, funcs: seq<Func>, x: int) {
    exists f, r :: f in funcs && r in f.ranges && Covers(load, r, x)
  }

  /** Two captures of one size hold the same code; the bytes between are arbitrary. */
  ghost predicate SameCode(d1: Bytes, d2: Bytes, load: int, funcs: seq<Func>) {
    |d1| == |d2| && forall x :: 0 <= x < |d1| && IsCode(load, funcs, x) ==> d1[x] == d2[x]
  }

  lemma SliceSame(d1: Bytes, d2: Bytes, load: int, funcs: seq<Func>, f: Func, r: CodeRange)
    requires SameCode(d1, d2, load, funcs) && f in funcs && r in f.ranges
    ensures Slice(d1, load, r) == Slice(d2, load, r)
  {
    hide IsCode, Phys;
    var off := Phys(r.lo) - Phys(load);
    if 0 <= off && off + r.len <= |d1| {
      forall x | off <= x < off + r.len ensures d1[x] == d2[x] {
        CodeThere(load, funcs, f, r, x);
      }
      assert d1[off..off + r.len] == d2[off..off + r.len];
    }
  }

  lemma CodeThere(load: int, funcs: seq<Func>, f: Func, r: CodeRange, x: int)
    requires f in funcs && r in f.ranges && Covers(load, r, x)
    ensures IsCode(load, funcs, x)
  {
    hide Covers;
  }

  lemma {:induction false} SlicesSame(d1: Bytes, d2: Bytes, load: int, funcs: seq<Func>, f: Func,
                                      ranges: seq<CodeRange>)
    requires SameCode(d1, d2, load, funcs) && f in funcs && forall r :: r in ranges ==> r in f.ranges
    ensures Slices(d1, load, ranges) == Slices(d2, load, ranges)
  {
    hide Slice, SameCode;
    if ranges != [] {
      assert ranges[0] in ranges;
      SliceSame(d1, d2, load, funcs, f, ranges[0]);
      SlicesSame(d1, d2, load, funcs, f, ranges[1..]);
    }
  }

  lemma {:induction false} IdsSame(d1: Bytes, d2: Bytes, load: int, funcs: seq<Func>, all: seq<Func>)
    requires SameCode(d1, d2, load, all) && forall f :: f in funcs ==> f in all
    ensures FuncIds(d1, load, funcs) == FuncIds(d2, load, funcs)
  {
    hide Slice, Slices, ChainAll, SameCode;
    if funcs != [] {
      assert funcs[0] in funcs;
      SlicesSame(d1, d2, load, all, funcs[0], funcs[0].ranges);
      IdsSame(d1, d2, load, funcs[1..], all);
    }
  }

  /** Captures that agree on the code bytes get the same identities, and so the same cache
      keys, whatever the data between holds. */
  lemma IdsDependOnCodeOnly(d1: Bytes, d2: Bytes, load: int, funcs: seq<Func>)
    requires SameCode(d1, d2, load, funcs)
    ensures FuncIds(d1, load, funcs) == FuncIds(d2, load, funcs)
    ensures Keys(FuncIds(d1, load, funcs)) == Keys(FuncIds(d2, load, funcs))
  {
    hide FuncIds, SameCode;
    IdsSame(d1, d2, load, funcs, funcs);
  }

  /** The recorded CRC is the runtime's CRC of the function's code bytes, joined. */
  lemma IdentityIsCodeCrc(data: Bytes, load: int, f: Func)
    requires FuncIdOf(data, load, f).Some?
    ensures FuncIdOf(data, load, f).value.crc == Compute(Concat(Slices(data, load, f.ranges).value))
  {
    hide ChainAll, Compute, Concat;
    ChainedRangesAreWhole(Slices(data, load, f.ranges).value);
  }
}
