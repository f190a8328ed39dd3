/** Manifests as text: hexadecimal fields on lines, written by the recompiler (F entry, R lo
    len) and by the overlay tool (F entry crc, R lo len), and read back.

    Numbers are the hexadecimal digits alone; prefixes, signs and underscores that the
    reading language would also accept are not part of this. */
module ManifestText {
  import opened Words
  import opened Crc
  import opened Identity

  // ---- hexadecimal ----

  const DIGITS: string := "0123456789ABCDEF"

  function DigitOf(d: nat): char
    requires d < 16
  {
    DIGITS[d]
  }

  function DigitValue(ch: char): Option<nat> {
    if '0' <= ch <= '9' then Some((ch - '0') as nat)
    else if 'A' <= ch <= 'F' then Some((ch - 'A') as nat + 10)
    else if 'a' <= ch <= 'f' then Some((ch - 'a') as nat + 10)
    else None
  }

  function ToHex(n: nat): (s: string)
    ensures s != []
  {
    if n < 16 then [DigitOf(n)] else ToHex(n / 16) + [DigitOf(n % 16)]
  }

  function Padded(s: string, width: nat): string
    decreases width - |s|
  {
    if |s| >= width then s else Padded("0" + s, width)
  }

  /** The value of a string of digits; none if it is empty or holds anything else. */
  function FromHex(s: string): Option<nat> {
    if s == [] then None
    else
      var d := DigitValue(s[|s| - 1]);
      if d == None then None
      else if |s| == 1 then d
      else
        var high := FromHex(s[..|s| - 1]);
        if high == None then None else Some(16 * high.value + d.value)
  }

  lemma DigitRoundTrip(d: nat)
    requires d < 16
    ensures DigitValue(DigitOf(d)) == Some(d)
  {
  }

  lemma {:induction false} HexRoundTrip(n: nat)
    ensures FromHex(ToHex(n)) == Some(n)
  {
    hide FromHex, DigitValue, DigitOf;
    if n < 16 {
      OneDigit(DigitOf(n));
      DigitRoundTrip(n);
    } else {
      HexRoundTrip(n / 16);
      DigitRoundTrip(n % 16);
      LastDigit(ToHex(n / 16), DigitOf(n % 16));
      assert n == 16 * (n / 16) + n % 16;
    }
  }

  lemma OneDigit(ch: char)
    ensures FromHex([ch]) == DigitValue(ch)
  {
    hide DigitValue;
  }

  lemma LastDigit(high: string, ch: char)
    requires FromHex(high).Some? && DigitValue(ch).Some?
    ensures FromHex(high + [ch]) == Some(16 * FromHex(high).value + DigitValue(ch).value)
  {
    hide DigitValue;
    assert (high + [ch])[..|high|] == high;
  }

  lemma {:induction false} LeadingZero(s: string)
    requires FromHex(s).Some?
    ensures FromHex("0" + s) == FromHex(s)
    decreases |s|
  {
    var t := "0" + s;
    assert t[|t| - 1] == s[|s| - 1];
    if |s| == 1 {
      assert t[..|t| - 1] == "0";
      assert FromHex("0") == Some(0);
    } else {
      assert t[..|t| - 1] == "0" + s[..|s| - 1];
      LeadingZero(s[..|s| - 1]);
    }
  }

  lemma {:induction false} PaddedRoundTrip(s: string, width: nat)
    requires FromHex(s).Some?
    ensures FromHex(Padded(s, width)) == FromHex(s)
    decreases width - |s|
  {
    if |s| < width {
      LeadingZero(s);
      PaddedRoundTrip("0" + s, width);
    }
  }

  /** {:08X} and {:X}. */
  function Hex8(n: nat): string {
    Padded(ToHex(n), 8)
  }

  lemma Hex8RoundTrip(n: nat)
    ensures FromHex(Hex8(n)) == Some(n)
  {
    HexRoundTrip(n);
    PaddedRoundTrip(ToHex(n), 8);
  }

  // ---- splitting a line ----

  predicate IsSpace(ch: char) {
    ch == ' ' || ch == '\t' || ch == '\n' || ch == '\r'
  }

  function SplitFrom(s: string, word: string): seq<string>
    decreases |s|
  {
    if s == [] then (if word == [] then [] else [word])
    else if IsSpace(s[0]) then (if word == [] then [] else [word]) + SplitFrom(s[1..], [])
    else SplitFrom(s[1..], word + [s[0]])
  }

  /** str.split(). */
  function Split(line: string): seq<string> {
    SplitFrom(line, [])
  }

  predicate IsToken(s: string) {
    s != [] && forall i :: 0 <= i < |s| ==> !IsSpace(s[i])
  }

  lemma {:induction false} SplitWord(s: string, rest: string, word: string)
    requires forall i :: 0 <= i < |s| ==> !IsSpace(s[i])
    ensures SplitFrom(s + rest, word) == SplitFrom(rest, word + s)
    decreases |s|
  {
    if s == [] {
      assert s + rest == rest && word + s == word;
    } else {
      assert (s + rest)[0] == s[0] && (s + rest)[1..] == s[1..] + rest;
      assert (word + [s[0]]) + s[1..] == word + s;
      SplitWord(s[1..], rest, word + [s[0]]);
    }
  }

  /** A token and a separator in front of the rest of a line. */
  lemma SplitToken(s: string, sep: char, rest: string)
    requires IsToken(s) && IsSpace(sep)
    ensures Split(s + [sep] + rest) == [s] + Split(rest)
  {
    assert s + [sep] + rest == s + ([sep] + rest);
    SplitWord(s, [sep] + rest, []);
    assert [] + s == s;
    assert ([sep] + rest)[0] == sep && ([sep] + rest)[1..] == rest;
  }

  lemma {:induction false} HexIsToken(n: nat)
    ensures IsToken(ToHex(n))
  {
    if n >= 16 {
      HexIsToken(n / 16);
    }
  }

  lemma {:induction false} PaddedIsToken(s: string, width: nat)
    requires IsToken(s)
    ensures IsToken(Padded(s, width))
    decreases width - |s|
  {
    if |s| < width {
      PaddedIsToken("0" + s, width);
    }
  }

  lemma Hex8IsToken(n: nat)
    ensures IsToken(Hex8(n))
  {
    HexIsToken(n);
    PaddedIsToken(ToHex(n), 8);
  }

  // ---- lines ----

  function Line1(tag: string, a: string): string {
    tag + " " + (a + "\n")
  }

  function Line2(tag: string, a: string, b: string): string {
    tag + " " + (a + " " + (b + "\n"))
  }

  lemma SplitLine1(tag: string, a: string)
    requires IsToken(tag) && IsToken(a)
    ensures Split(Line1(tag, a)) == [tag, a]
  {
    SplitToken(tag, ' ', a + "\n");
    SplitToken(a, '\n', []);
    assert a + "\n" == a + ['\n'] + [];
    assert Split([]) == [];
    assert [tag] + ([a] + []) == [tag, a];
  }

  lemma SplitLine2(tag: string, a: string, b: string)
    requires IsToken(tag) && IsToken(a) && IsToken(b)
    ensures Split(Line2(tag, a, b)) == [tag, a, b]
  {
    SplitToken(tag, ' ', a + " " + (b + "\n"));
    SplitToken(a, ' ', b + "\n");
    SplitToken(b, '\n', []);
    assert b + "\n" == b + ['\n'] + [];
    assert Split([]) == [];
    assert [tag] + ([a] + ([b] + [])) == [tag, a, b];
  }

  // ---- the recompiler's manifest ----

  function RangeLines(ranges: seq<CodeRange>): seq<string>
    requires forall r :: r in ranges ==> r.lo >= 0
  {
    if ranges == [] then []
    else
      assert ranges[0] in ranges;
      [Line2("R", Hex8(ranges[0].lo), ToHex(ranges[0].len))] + RangeLines(ranges[1..])
  }

  predicate Printable(funcs: seq<Func>) {
    forall f :: f in funcs ==> f.entry >= 0 && forall r :: r in f.ranges ==> r.lo >= 0
  }

  function FunctionLines(f: Func): seq<string>
    requires f.entry >= 0 && forall r :: r in f.ranges ==> r.lo >= 0
  {
    [Line1("F", Hex8(f.entry))] + RangeLines(f.ranges)
  }

  /** F and R lines of generate_ranges_manifest. */
  function Printed(funcs: seq<Func>): seq<string>
    requires Printable(funcs)
  {
    if funcs == [] then []
    else
      assert funcs[0] in funcs;
      FunctionLines(funcs[0]) + Printed(funcs[1..])
  }

  predicate InOverlay(load: int, size: int, a: int) {
    Phys(load) <= Phys(a) < Phys(load) + size
  }

  /** The reader's state: functions so far, and whether R lines belong to the last. */
  datatype Parsed = Parsed(funcs: seq<Func>, open: bool)

  function AddRange(p: Parsed, r: CodeRange): Parsed {
    if p.open && p.funcs != [] then
      var last := p.funcs[|p.funcs| - 1];
      Parsed(p.funcs[|p.funcs| - 1 := last.(ranges := last.ranges + [r])], true)
    else p
  }

  function ParseLine(load: int, size: int, p: Parsed, line: string): Parsed {
    var s := Split(line);
    if s == [] then p
    else if s[0] == "F" then
      var a := if |s| >= 2 then FromHex(s[1]) else None;
      if a.Some? && InOverlay(load, size, a.value) then Parsed(p.funcs + [Func(a.value, [])], true)
      else Parsed(p.funcs, false)
    else if s[0] == "R" then
      var lo := if |s| >= 3 then FromHex(s[1]) else None;
      var len := if |s| >= 3 then FromHex(s[2]) else None;
      if lo.Some? && len.Some? then AddRange(p, CodeRange(lo.value, len.value)) else p
    else p
  }

  function ParseLines(load: int, size: int, p: Parsed, lines: seq<string>): Parsed
    decreases |lines|
  {
    if lines == [] then p else ParseLines(load, size, ParseLine(load, size, p, lines[0]), lines[1..])
  }

  /** The first half of parse_overlay_func_ids. */
  method ParseManifest(load: int, size: int, lines: seq<string>) returns (funcs: seq<Func>)
    ensures funcs == ParseLines(load, size, Parsed([], false), lines).funcs
  {
    hide ParseLine;
    var p := Parsed([], false);
    var k := 0;
    assert lines[0..] == lines;
    while k < |lines|
      invariant 0 <= k <= |lines|
      invariant ParseLines(load, size, p, lines[k..]) == ParseLines(load, size, Parsed([], false), lines)
    {
      assert lines[k..][0] == lines[k] && lines[k..][1..] == lines[k + 1..];
      p := ParseLine(load, size, p, lines[k]);
      k := k + 1;
    }
    assert lines[k..] == [];
    funcs := p.funcs;
  }

  lemma {:induction false} ParseConcat(load: int, size: int, p: Parsed, a: seq<string>, b: seq<string>)
    ensures ParseLines(load, size, p, a + b) == ParseLines(load, size, ParseLines(load, size, p, a), b)
    decreases |a|
  {
    hide ParseLine;
    if a == [] {
      assert a + b == b;
    } else {
      assert (a + b)[0] == a[0] && (a + b)[1..] == a[1..] + b;
      ParseConcat(load, size, ParseLine(load, size, p, a[0]), a[1..], b);
    }
  }

  lemma EntryLineParsed(load: int, size: int, p: Parsed, entry: nat)
    ensures ParseLine(load, size, p, Line1("F", Hex8(entry)))
            == if InOverlay(load, size, entry) then Parsed(p.funcs + [Func(entry, [])], true)
              else Parsed(p.funcs, false)
  {
    hide Line1, Hex8, Split, FromHex, InOverlay;
    Hex8IsToken(entry);
    SplitLine1("F", Hex8(entry));
    Hex8RoundTrip(entry);
  }

  lemma RangeLineParsed(load: int, size: int, p: Parsed, lo: nat, len: nat)
    ensures ParseLine(load, size, p, Line2("R", Hex8(lo), ToHex(len))) == AddRange(p, CodeRange(lo, len))
  {
    hide Line2, Hex8, ToHex, Split, FromHex, InOverlay, AddRange;
    Hex8IsToken(lo);
    HexIsToken(len);
    SplitLine2("R", Hex8(lo), ToHex(len));
    Hex8RoundTrip(lo);
    HexRoundTrip(len);
    assert "R" != "F";
  }

  lemma ParseMore(load: int, size: int, p: Parsed, line: string, rest: seq<string>)
    ensures ParseLines(load, size, p, [line] + rest) == ParseLines(load, size, ParseLine(load, size, p, line), rest)
  {
    hide ParseLine;
    assert ([line] + rest)[1..] == rest;
  }

  lemma RangeAdded(before: seq<Func>, f: Func, r: CodeRange)
    ensures AddRange(Parsed(before + [f], true), r) == Parsed(before + [f.(ranges := f.ranges + [r])], true)
  {
    var f' := f.(ranges := f.ranges + [r]);
    assert (before + [f])[|before|] == f;
    assert (before + [f])[|before| := f'] == before + [f'];
  }

  /** The R lines of one function: each adds its range to the function read last, or to none. */
  lemma {:induction false} RangesParsed(load: int, size: int, p: Parsed, f: Func, before: seq<Func>,
                                        ranges: seq<CodeRange>)
    requires (forall r :: r in ranges ==> r.lo >= 0) && p == Parsed(before + [f], true)
    ensures ParseLines(load, size, p, RangeLines(ranges)) == Parsed(before + [f.(ranges := f.ranges + ranges)], true)
    decreases |ranges|
  {
    hide ParseLine, ParseLines, Line2, Hex8, ToHex, AddRange;
    if ranges == [] {
      NothingParsed(load, size, p);
      assert f.ranges + ranges == f.ranges;
    } else {
      var r := ranges[0];
      assert r in ranges;
      var f' := f.(ranges := f.ranges + [r]);
      ParseMore(load, size, p, Line2("R", Hex8(r.lo), ToHex(r.len)), RangeLines(ranges[1..]));
      RangeLineParsed(load, size, p, r.lo, r.len);
      RangeAdded(before, f, r);
      RangesParsed(load, size, Parsed(before + [f'], true), f', before, ranges[1..]);
      assert f'.ranges + ranges[1..] == f.ranges + ranges;
    }
  }

  lemma {:induction false} RangesIgnored(load: int, size: int, p: Parsed, ranges: seq<CodeRange>)
    requires (forall r :: r in ranges ==> r.lo >= 0) && !p.open
    ensures ParseLines(load, size, p, RangeLines(ranges)) == p
    decreases |ranges|
  {
    hide ParseLine, ParseLines, Line2, Hex8, ToHex;
    if ranges == [] {
      NothingParsed(load, size, p);
    } else {
      var r := ranges[0];
      assert r in ranges;
      ParseMore(load, size, p, Line2("R", Hex8(r.lo), ToHex(r.len)), RangeLines(ranges[1..]));
      RangeLineParsed(load, size, p, r.lo, r.len);
      RangesIgnored(load, size, p, ranges[1..]);
    }
  }

  function KeepInOverlay(load: int, size: int, funcs: seq<Func>): seq<Func> {
    if funcs == [] then []
    else (if InOverlay(load, size, funcs[0].entry) then [funcs[0]] else []) + KeepInOverlay(load, size, funcs[1..])
  }

  lemma OneLine(load: int, size: int, p: Parsed, line: string)
    ensures ParseLines(load, size, p, [line]) == ParseLine(load, size, p, line)
  {
    hide ParseLine;
    assert [line][1..] == [];
  }

  /** One function's lines add it, or nothing when its entry is outside the overlay. */
  lemma FunctionParsed(load: int, size: int, p: Parsed, f: Func)
    requires f.entry >= 0 && forall r :: r in f.ranges ==> r.lo >= 0
    ensures ParseLines(load, size, p, FunctionLines(f))
            == if InOverlay(load, size, f.entry) then Parsed(p.funcs + [f], true) else Parsed(p.funcs, false)
  {
    hide ParseLine, ParseLines, Line1, Hex8, RangeLines, InOverlay;
    var head := Line1("F", Hex8(f.entry));
    EntryLineParsed(load, size, p, f.entry);
    OneLine(load, size, p, head);
    var p1 := ParseLine(load, size, p, head);
    ParseConcat(load, size, p, [head], RangeLines(f.ranges));
    if InOverlay(load, size, f.entry) {
      RangesParsed(load, size, p1, Func(f.entry, []), p.funcs, f.ranges);
      assert [] + f.ranges == f.ranges;
    } else {
      RangesIgnored(load, size, p1, f.ranges);
    }
  }

  lemma FirstPrinted(funcs: seq<Func>)
    requires Printable(funcs) && funcs != []
    ensures funcs[0].entry >= 0 && forall r :: r in funcs[0].ranges ==> r.lo >= 0
    ensures Printable(funcs[1..]) && Printed(funcs) == FunctionLines(funcs[0]) + Printed(funcs[1..])
  {
    hide FunctionLines;
    assert funcs[0] in funcs;
  }

  lemma NothingPrinted(load: int, size: int, funcs: seq<Func>)
    requires funcs == []
    ensures Printable(funcs) && Printed(funcs) == [] && KeepInOverlay(load, size, funcs) == []
  {
  }

  lemma KeepFirst(load: int, size: int, before: seq<Func>, funcs: seq<Func>)
    requires funcs != []
    ensures before + KeepInOverlay(load, size, funcs)
            == (if InOverlay(load, size, funcs[0].entry) then before + [funcs[0]] else before)
               + KeepInOverlay(load, size, funcs[1..])
  {
    hide InOverlay;
  }

  lemma {:induction false} PrintedParsed(load: int, size: int, p: Parsed, funcs: seq<Func>)
    requires Printable(funcs)
    ensures ParseLines(load, size, p, Printed(funcs)).funcs == p.funcs + KeepInOverlay(load, size, funcs)
    decreases |funcs|
  {
    hide ParseLine, ParseLines, FunctionLines, InOverlay, Printable, Printed, KeepInOverlay;
    if funcs == [] {
      NothingPrinted(load, size, funcs);
      NothingParsed(load, size, p);
    } else {
      var f := funcs[0];
      KeepFirst(load, size, p.funcs, funcs);
      FirstPrinted(funcs);
      FunctionParsed(load, size, p, f);
      var p2 := ParseLines(load, size, p, FunctionLines(f));
      ParseConcat(load, size, p, FunctionLines(f), Printed(funcs[1..]));
      PrintedParsed(load, size, p2, funcs[1..]);
    }
  }

  lemma NothingParsed(load: int, size: int, p: Parsed)
    ensures ParseLines(load, size, p, []) == p
  {
  }

  /** Reading back what was written gives the same entries with the same ranges, in order,
      for all functions of the overlay. */
  lemma ManifestRoundTrip(load: int, size: int, funcs: seq<Func>)
    requires Printable(funcs)
    ensures ParseLines(load, size, Parsed([], false), Printed(funcs)).funcs == KeepInOverlay(load, size, funcs)
    ensures (forall f :: f in funcs ==> InOverlay(load, size, f.entry)) ==> KeepInOverlay(load, size, funcs) == funcs
  {
    hide Printed, ParseLines, InOverlay;
    PrintedParsed(load, size, Parsed([], false), funcs);
    if forall f :: f in funcs ==> InOverlay(load, size, f.entry) {
      KeepAll(load, size, funcs);
    }
  }

  lemma {:induction false} KeepAll(load: int, size: int, funcs: seq<Func>)
    requires forall f :: f in funcs ==> InOverlay(load, size, f.entry)
    ensures KeepInOverlay(load, size, funcs) == funcs
  {
    hide InOverlay;
    if funcs != [] {
      assert funcs[0] in funcs;
      KeepAll(load, size, funcs[1..]);
    }
  }

  // ---- the overlay tool's manifest ----

  function CrcOf(i: FuncId): nat {
    i.crc as nat
  }

  /** The written address of a range: its physical part in the cached segment. */
  function V2RangeLines(ranges: seq<CodeRange>): seq<string> {
    if ranges == [] then []
    else [Line2("R", Hex8(Virtual(ranges[0].lo)), ToHex(ranges[0].len))] + V2RangeLines(ranges[1..])
  }

  /** write_overlay_ranges_from, below its comment line. */
  function PrintedIds(ids: seq<FuncId>): seq<string> {
    if ids == [] then []
    else [Line2("F", Hex8(ids[0].ev), Hex8(CrcOf(ids[0])))] + V2RangeLines(ids[0].ranges) + PrintedIds(ids[1..])
  }

  function HeaderLine(): string {
    "#" + [' '] + "psxrecomp overlay code-range manifest v2 (entry+code_crc)\n"
  }

  /** The identity a line of a manifest names, if it is one. */
  function CoverageOf(line: string): set<(nat, nat)> {
    var s := Split(line);
    if |s| >= 3 && s[0] == "F" && FromHex(s[1]).Some? && FromHex(s[2]).Some?
    then {(FromHex(s[1]).value, FromHex(s[2]).value)} else {}
  }

  function Coverage(lines: seq<string>): set<(nat, nat)> {
    if lines == [] then {} else CoverageOf(lines[0]) + Coverage(lines[1..])
  }

  /** load_region_coverage, for one manifest. */
  method LoadCoverage(lines: seq<string>) returns (covered: set<(nat, nat)>)
    ensures covered == Coverage(lines)
  {
    hide CoverageOf;
    covered := {};
    var k := 0;
    assert lines[0..] == lines;
    while k < |lines|
      invariant 0 <= k <= |lines|
      invariant covered + Coverage(lines[k..]) == Coverage(lines)
    {
      assert lines[k..][0] == lines[k] && lines[k..][1..] == lines[k + 1..];
      covered := covered + CoverageOf(lines[k]);
      k := k + 1;
    }
    assert lines[k..] == [];
  }

  function IdPairs(ids: seq<FuncId>): set<(nat, nat)> {
    if ids == [] then {} else {(ids[0].ev as nat, CrcOf(ids[0]))} + IdPairs(ids[1..])
  }

  lemma {:induction false} CoverageConcat(a: seq<string>, b: seq<string>)
    ensures Coverage(a + b) == Coverage(a) + Coverage(b)
    decreases |a|
  {
    hide CoverageOf;
    if a == [] {
      assert a + b == b;
    } else {
      assert (a + b)[0] == a[0] && (a + b)[1..] == a[1..] + b;
      CoverageConcat(a[1..], b);
    }
  }

  lemma IdLineCovers(ev: nat, crc: nat)
    ensures CoverageOf(Line2("F", Hex8(ev), Hex8(crc))) == {(ev, crc)}
  {
    hide Line2, Hex8, Split, FromHex;
    Hex8IsToken(ev);
    Hex8IsToken(crc);
    SplitLine2("F", Hex8(ev), Hex8(crc));
    Hex8RoundTrip(ev);
    Hex8RoundTrip(crc);
  }

  lemma RangeLineCovers(lo: nat, len: nat)
    ensures CoverageOf(Line2("R", Hex8(lo), ToHex(len))) == {}
  {
    hide Line2, Hex8, ToHex, Split, FromHex;
    Hex8IsToken(lo);
    HexIsToken(len);
    SplitLine2("R", Hex8(lo), ToHex(len));
    assert "R" != "F";
  }

  lemma {:induction false} RangeLinesCover(ranges: seq<CodeRange>)
    ensures Coverage(V2RangeLines(ranges)) == {}
  {
    hide CoverageOf, Line2, Hex8, ToHex;
    if ranges != [] {
      RangeLineCovers(Virtual(ranges[0].lo), ranges[0].len);
      assert V2RangeLines(ranges)[1..] == V2RangeLines(ranges[1..]);
      RangeLinesCover(ranges[1..]);
    }
  }

  lemma {:induction false} PrintedIdsCover(ids: seq<FuncId>)
    ensures Coverage(PrintedIds(ids)) == IdPairs(ids)
  {
    hide CoverageOf, Line2, Hex8, V2RangeLines, CrcOf;
    if ids != [] {
      var line := Line2("F", Hex8(ids[0].ev), Hex8(CrcOf(ids[0])));
      IdLineCovers(ids[0].ev, CrcOf(ids[0]));
      RangeLinesCover(ids[0].ranges);
      OneLineCovers(line);
      CoverageConcat([line], V2RangeLines(ids[0].ranges));
      CoverageConcat([line] + V2RangeLines(ids[0].ranges), PrintedIds(ids[1..]));
      PrintedIdsCover(ids[1..]);
    }
  }

  lemma OneLineCovers(line: string)
    ensures Coverage([line]) == CoverageOf(line)
  {
    hide CoverageOf;
    assert [line][1..] == [];
  }

  /** The loader reads from a written manifest exactly the identities it was written for. */
  lemma CoverageRoundTrip(ids: seq<FuncId>)
    ensures Coverage([HeaderLine()] + PrintedIds(ids)) == IdPairs(ids)
  {
    hide CoverageOf, PrintedIds;
    PrintedIdsCover(ids);
    OneLineCovers(HeaderLine());
    HeaderCoversNothing();
    CoverageConcat([HeaderLine()], PrintedIds(ids));
  }

  lemma HeaderCoversNothing()
    ensures CoverageOf(HeaderLine()) == {}
  {
    hide FromHex;
    var rest := "psxrecomp overlay code-range manifest v2 (entry+code_crc)\n";
    SplitToken("#", ' ', rest);
    assert Split(HeaderLine())[0] == "#";
    assert "#" != "F";
  }
}
