/** generate_ranges_manifest from end to end: graphs to merged ranges, printed, and read back
    by the overlay tool. */
module RangesManifest {
  import opened Words
  import opened ControlFlow
  import opened Identity
  import opened Manifest
  import opened ManifestText

  /** The one range of a function: its own extent, or its host's for an alias. */
  function EntryOf(f: Function): Func
    requires f.WalkLo() <= f.end
  {
    Func(f.start, [CodeRange(f.WalkLo(), f.end - f.WalkLo())])
  }

  predicate Extents(functions: seq<Function>) {
    forall f :: f in functions ==> f.WalkLo() <= f.end
  }

  /** The entries of the functions that have a graph. */
  function Entries(functions: seq<Function>, graphs: set<Word>): seq<Func>
    requires Extents(functions)
  {
    if functions == [] then []
    else
      assert functions[0] in functions;
      (if functions[0].start in graphs then [EntryOf(functions[0])] else []) + Entries(functions[1..], graphs)
  }

  /** The comment lines on top. */
  function CommentLines(): seq<string> {
    ["#" + [' '] + "psxrecomp overlay code-range manifest v1\n",
     "#" + [' '] + "F <entry>   one per function (virtual entry address)\n",
     "#" + [' '] + "R <lo> <len>  one per coalesced code range (hex, virtual)\n"]
  }

  lemma {:induction false} EntriesPrintable(functions: seq<Function>, graphs: set<Word>)
    requires Extents(functions)
    ensures Printable(Entries(functions, graphs))
  {
    if functions != [] {
      assert functions[0] in functions;
      EntriesPrintable(functions[1..], graphs);
    }
  }

  lemma PrintedAppend(a: seq<Func>, f: Func)
    requires Printable(a) && f.entry >= 0 && forall r :: r in f.ranges ==> r.lo >= 0
    ensures Printable(a + [f]) && Printed(a + [f]) == Printed(a) + FunctionLines(f)
    decreases |a|
  {
    hide FunctionLines, Printable;
    if a == [] {
      assert a + [f] == [f] && [f][1..] == [];
      PrintableOne(f);
    } else {
      FirstPrinted(a);
      PrintedAppend(a[1..], f);
      assert (a + [f])[1..] == a[1..] + [f] && (a + [f])[0] == a[0];
      PrintableBoth(a, f);
      FirstPrinted(a + [f]);
    }
  }

  lemma PrintableOne(f: Func)
    requires f.entry >= 0 && forall r :: r in f.ranges ==> r.lo >= 0
    ensures Printable([f]) && Printed([f]) == FunctionLines(f)
  {
    hide FunctionLines;
    assert [f][1..] == [];
  }

  lemma PrintableBoth(a: seq<Func>, f: Func)
    requires Printable(a) && f.entry >= 0 && forall r :: r in f.ranges ==> r.lo >= 0
    ensures Printable(a + [f])
  {
  }

  lemma {:induction false} EntriesAppend(functions: seq<Function>, graphs: set<Word>, f: Function)
    requires Extents(functions + [f])
    ensures Extents(functions) && f.WalkLo() <= f.end
    ensures Entries(functions + [f], graphs) == Entries(functions, graphs) + if f.start in graphs then [EntryOf(f)]
            else []
    decreases |functions|
  {
    hide EntryOf;
    assert f in functions + [f];
    forall g | g in functions ensures g in functions + [f] {
    }
    if functions == [] {
      assert functions + [f] == [f] && [f][1..] == [];
    } else {
      assert (functions + [f])[0] == functions[0] && (functions + [f])[1..] == functions[1..] + [f];
      EntriesAppend(functions[1..], graphs, f);
    }
  }

  /** generate_ranges_manifest: every function with a graph gets its line and one range. */
  method GenerateRangesManifest(img: Image, functions: seq<Function>, graphs: set<Word>) returns (lines: seq<string>)
    requires forall f :: f in functions && f.start in graphs ==> f.Valid()
    requires Extents(functions)
    ensures Printable(Entries(functions, graphs)) && lines == CommentLines() + Printed(Entries(functions, graphs))
  {
    hide Printed, FunctionLines, Printable, Function.Valid, Entries, EntryOf, CommentLines;
    lines := CommentLines();
    NothingToPrint(graphs);
    var k := 0;
    while k < |functions|
      invariant 0 <= k <= |functions|
      invariant Extents(functions[..k]) && Printable(Entries(functions[..k], graphs))
      invariant lines == CommentLines() + Printed(Entries(functions[..k], graphs))
    {
      var f := functions[k];
      assert functions[..k + 1] == functions[..k] + [f];
      ghost var before := Entries(functions[..k], graphs);
      EntriesAppend(functions[..k], graphs, f);
      assert before + [] == before;
      if f.start in graphs {
        var merged := FunctionRanges(img, f);
        EntryPrintable(f);
        PrintedAppend(before, EntryOf(f));
        var more := RangesText(f, merged);
        lines := lines + more;
      }
      k := k + 1;
    }
    assert functions[..k] == functions;
  }

  lemma NothingToPrint(graphs: set<Word>)
    ensures Extents([]) && Entries([], graphs) == [] && Printable([]) && Printed([]) == []
  {
  }

  lemma EntryPrintable(f: Function)
    requires f.WalkLo() <= f.end
    ensures EntryOf(f).entry >= 0 && forall r :: r in EntryOf(f).ranges ==> r.lo >= 0
  {
  }

  lemma OneRange(f: Function)
    requires f.WalkLo() <= f.end
    ensures forall r :: r in EntryOf(f).ranges ==> r.lo >= 0
    ensures FunctionLines(EntryOf(f))
            == [Line1("F", Hex8(f.start))] + [Line2("R", Hex8(f.WalkLo()), ToHex(f.end - f.WalkLo()))]
  {
    hide Line1, Line2, Hex8, ToHex;
    var ranges := EntryOf(f).ranges;
    assert ranges[1..] == [];
    assert RangeLines(ranges) == [Line2("R", Hex8(f.WalkLo()), ToHex(f.end - f.WalkLo()))] + [];
  }

  /** The lines of one function. */
  method RangesText(f: Function, merged: seq<Interval>) returns (lines: seq<string>)
    requires f.WalkLo() <= f.end && merged == [Interval(f.WalkLo(), f.end)]
    ensures lines == FunctionLines(EntryOf(f))
  {
    hide Line1, Line2, Hex8, ToHex, FunctionLines, EntryOf;
    OneRange(f);
    EntryPrintable(f);
    lines := [Line1("F", Hex8(f.start))];
    var k := 0;
    while k < |merged|
      invariant 0 <= k <= |merged|
      invariant k == 0 ==> lines == [Line1("F", Hex8(f.start))]
      invariant k == 1 ==> lines == FunctionLines(EntryOf(f))
    {
      lines := lines + [Line2("R", Hex8(merged[k].lo), ToHex(merged[k].hi - merged[k].lo))];
      k := k + 1;
    }
  }

  // ---- read back ----

  lemma CommentIgnored(load: int, size: int, p: Parsed, rest: string)
    ensures ParseLine(load, size, p, "#" + [' '] + rest) == p
  {
    hide FromHex, AddRange, Split;
    SplitToken("#", ' ', rest);
    assert "#" != "F" && "#" != "R";
  }

  lemma CommentsIgnored(load: int, size: int, p: Parsed)
    ensures ParseLines(load, size, p, CommentLines()) == p
  {
    hide ParseLine, ParseLines;
    CommentIgnored(load, size, p, "psxrecomp overlay code-range manifest v1\n");
    CommentIgnored(load, size, p, "F <entry>   one per function (virtual entry address)\n");
    CommentIgnored(load, size, p, "R <lo> <len>  one per coalesced code range (hex, virtual)\n");
    var s := CommentLines();
    assert s == [s[0]] + ([s[1]] + ([s[2]] + []));
    ParseMore(load, size, p, s[0], [s[1]] + ([s[2]] + []));
    ParseMore(load, size, p, s[1], [s[2]] + []);
    ParseMore(load, size, p, s[2], []);
    NothingParsed(load, size, p);
  }

  /** What the tool reads back from the written manifest: the functions of the overlay that
      have a graph, in order, each with the one range it extends over. */
  lemma ManifestReadBack(load: int, size: int, functions: seq<Function>, graphs: set<Word>)
    requires Extents(functions)
    ensures Printable(Entries(functions, graphs))
    ensures ParseLines(load, size, Parsed([], false), CommentLines() + Printed(Entries(functions, graphs))).funcs
            == KeepInOverlay(load, size, Entries(functions, graphs))
  {
    hide Entries, Printed, CommentLines, ParseLines, KeepInOverlay;
    EntriesPrintable(functions, graphs);
    ParseConcat(load, size, Parsed([], false), CommentLines(), Printed(Entries(functions, graphs)));
    CommentsIgnored(load, size, Parsed([], false));
    ManifestRoundTrip(load, size, Entries(functions, graphs));
  }
}
