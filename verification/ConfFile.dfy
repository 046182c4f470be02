/**
 * Configuration files: loading text into sections of settings, and printing them.
 */
module ConfFiles {
  import opened ConfText
  import opened ConfParser

  type Section = map<string, string>
  type Sections = map<string, Section>

  /** The sections so far, the current one, the beginning of a continued line, and how many
      complaints there were. */
  datatype Loader = Loader(sections: Sections, cur: string, acc: string, errors: nat)

  predicate LoaderOk(ld: Loader) { ld.cur in ld.sections && NUL !in ld.acc }

  const FRESH: Loader := Loader(map["global" := map[]], "global", "", 0)

  /** What a parsed line does to the sections. */
  function Enter(ld: Loader, o: Outcome): (r: Loader)
    requires LoaderOk(ld)
    ensures LoaderOk(r)
  {
    match o
    case Blank => ld
    case Wrong => ld.(errors := ld.errors + 1)
    case Line(k, v, name) =>
      if name != "" then
        ld.(sections := if name in ld.sections then ld.sections else ld.sections[name := map[]], cur := name)
      else ld.(sections := ld.sections[ld.cur := ld.sections[ld.cur][k := v]])
  }

  /** One line of the file; a backslash at its end joins it to the next. */
  function Feed(ld: Loader, line: string, utf8: string -> bool): (r: Loader)
    requires LoaderOk(ld)
    ensures LoaderOk(r)
  {
    if NUL in line || !utf8(line) then ld.(acc := "", errors := ld.errors + 1)
    else if line != "" && line[|line| - 1] == '\\' then ld.(acc := ld.acc + line[..|line| - 1])
    else Enter(ld.(acc := ""), ParseLine(ld.acc + line))
  }

  function Finish(ld: Loader): Loader {
    if ld.acc == "" then ld else ld.(errors := ld.errors + 1)
  }

  /** Where the first newline is, or the length if there is none. */
  function Newline(text: string): (n: nat)
    ensures n <= |text| && (n < |text| ==> text[n] == '\n')
    ensures forall i {:trigger text[i]} | 0 <= i < n :: text[i] != '\n'
  {
    if text == [] || text[0] == '\n' then 0 else 1 + Newline(text[1..])
  }

  /** Loading a text line by line; what follows the last newline is ignored. */
  function Load(ld: Loader, text: string, utf8: string -> bool): Loader
    requires LoaderOk(ld)
    decreases |text|
  {
    var n := Newline(text);
    if text == [] then Finish(ld)
    else if n == |text| then Finish(ld.(errors := ld.errors + 1))
    else Load(Feed(ld, text[..n], utf8), text[n + 1..], utf8)
  }

  // ---------------------------------------------------------------- printing

  type Setting = (string, string)

  function PrintSettings(es: seq<Setting>): seq<string> {
    if es == [] then []
    else (if es[0].0 == "" then [] else [PrintSetting(es[0].0, es[0].1)]) + PrintSettings(es[1..])
  }

  /** The lines of all sections, in the order in which they are enumerated. */
  function PrintLines(order: seq<(string, seq<Setting>)>): seq<string> {
    if order == [] then [] else [PrintSection(order[0].0)] + PrintSettings(order[0].1) + PrintLines(order[1..])
  }

  function Join(lines: seq<string>): string {
    if lines == [] then "" else lines[0] + "\n" + Join(lines[1..])
  }

  // ---------------------------------------------------------------- loading line by line

  ghost function FeedAll(ld: Loader, lines: seq<string>, utf8: string -> bool): (r: Loader)
    requires LoaderOk(ld)
    ensures LoaderOk(r)
    decreases |lines|
  {
    if lines == [] then ld else FeedAll(Feed(ld, lines[0], utf8), lines[1..], utf8)
  }

  lemma {:induction false} FeedConcat(ld: Loader, a: seq<string>, b: seq<string>, utf8: string -> bool)
    requires LoaderOk(ld)
    ensures FeedAll(ld, a + b, utf8) == FeedAll(FeedAll(ld, a, utf8), b, utf8)
    decreases |a|
  {
    if a == [] {
      assert a + b == b;
    } else {
      assert (a + b)[1..] == a[1..] + b;
      FeedConcat(Feed(ld, a[0], utf8), a[1..], b, utf8);
    }
  }

  lemma FirstLine(line: string, rest: string)
    requires '\n' !in line
    ensures var text := line + "\n" + rest;
            Newline(text) == |line| && text[..|line|] == line && text[|line| + 1..] == rest
  {
    var text := line + "\n" + rest;
    var n := Newline(text);
    assert text[|line|] == '\n';
    forall i | 0 <= i < |line| ensures text[i] != '\n' { assert text[i] == line[i]; }
  }

  lemma {:induction false} LoadJoin(ld: Loader, lines: seq<string>, utf8: string -> bool)
    requires LoaderOk(ld) && forall l | l in lines :: '\n' !in l
    ensures Load(ld, Join(lines), utf8) == Finish(FeedAll(ld, lines, utf8))
    decreases |lines|
  {
    if lines != [] {
      FirstLine(lines[0], Join(lines[1..]));
      LoadJoin(Feed(ld, lines[0], utf8), lines[1..], utf8);
    }
  }

  // ---------------------------------------------------------------- what printed lines do

  ghost predicate GoodSetting(e: Setting, utf8: string -> bool) {
    e.0 == "" || (GoodKey(e.0) && GoodVal(e.1) && utf8(PrintSetting(e.0, e.1)))
  }

  ghost predicate GoodSettings(es: seq<Setting>, utf8: string -> bool) {
    forall i {:trigger es[i]} | 0 <= i < |es| :: GoodSetting(es[i], utf8)
  }

  function Put(sec: Section, e: Setting): Section { if e.0 == "" then sec else sec[e.0 := e.1] }

  function PutAll(sec: Section, es: seq<Setting>): Section
    decreases |es|
  {
    if es == [] then sec else PutAll(Put(sec, es[0]), es[1..])
  }

  lemma FeedSetting(ld: Loader, e: Setting, utf8: string -> bool)
    requires LoaderOk(ld) && ld.acc == "" && e.0 != "" && GoodSetting(e, utf8)
    ensures Feed(ld, PrintSetting(e.0, e.1), utf8) == ld.(sections := ld.sections[ld.cur := Put(ld.sections[ld.cur], e)])
  {
    var line := PrintSetting(e.0, e.1);
    SettingReadsBack(e.0, e.1);
    assert line[|line| - 1] == '"';
    assert "" + line == line;
  }

  lemma {:induction false} FeedSettings(ld: Loader, es: seq<Setting>, utf8: string -> bool)
    requires LoaderOk(ld) && ld.acc == "" && GoodSettings(es, utf8)
    ensures FeedAll(ld, PrintSettings(es), utf8) == ld.(sections := ld.sections[ld.cur := PutAll(ld.sections[ld.cur], es)])
    decreases |es|
  {
    if es == [] {
      assert ld.sections[ld.cur := ld.sections[ld.cur]] == ld.sections;
    } else if es[0].0 == "" {
      assert PrintSettings(es) == PrintSettings(es[1..]);
      FeedSettings(ld, es[1..], utf8);
    } else {
      assert GoodSetting(es[0], utf8);
      FeedSetting(ld, es[0], utf8);
      var ld' := ld.(sections := ld.sections[ld.cur := Put(ld.sections[ld.cur], es[0])]);
      assert PrintSettings(es)[1..] == PrintSettings(es[1..]);
      FeedSettings(ld', es[1..], utf8);
      assert ld'.sections[ld.cur := PutAll(ld'.sections[ld.cur], es[1..])] == ld.sections[ld.cur := PutAll(ld.sections[ld.cur], es)];
    }
  }

  function Base(m: Sections, name: string): Section { if name in m then m[name] else map[] }

  function PutSections(m: Sections, order: seq<(string, seq<Setting>)>): Sections
    decreases |order|
  {
    if order == [] then m else PutSections(m[order[0].0 := PutAll(Base(m, order[0].0), order[0].1)], order[1..])
  }

  ghost predicate GoodGroup(g: (string, seq<Setting>), utf8: string -> bool) {
    GoodSection(g.0) && utf8(PrintSection(g.0)) && GoodSettings(g.1, utf8)
  }

  ghost predicate GoodOrder(order: seq<(string, seq<Setting>)>, utf8: string -> bool) {
    forall i {:trigger order[i]} | 0 <= i < |order| :: GoodGroup(order[i], utf8)
  }

  lemma FeedHeader(ld: Loader, name: string, utf8: string -> bool)
    requires LoaderOk(ld) && ld.acc == "" && GoodSection(name) && utf8(PrintSection(name))
    ensures Feed(ld, PrintSection(name), utf8) == ld.(sections := ld.sections[name := Base(ld.sections, name)], cur := name)
  {
    var line := PrintSection(name);
    SectionReadsBack(name);
    assert line[|line| - 1] == ']';
    assert "" + line == line;
    if name in ld.sections { assert ld.sections[name := ld.sections[name]] == ld.sections; }
  }

  lemma FeedGroup(ld: Loader, g: (string, seq<Setting>), utf8: string -> bool)
    requires LoaderOk(ld) && ld.acc == "" && GoodGroup(g, utf8)
    ensures FeedAll(ld, [PrintSection(g.0)] + PrintSettings(g.1), utf8) ==
            ld.(sections := ld.sections[g.0 := PutAll(Base(ld.sections, g.0), g.1)], cur := g.0)
  {
    FeedHeader(ld, g.0, utf8);
    var ld' := Feed(ld, PrintSection(g.0), utf8);
    assert ([PrintSection(g.0)] + PrintSettings(g.1))[1..] == PrintSettings(g.1);
    FeedSettings(ld', g.1, utf8);
    assert ld'.sections[g.0 := PutAll(Base(ld.sections, g.0), g.1)] == ld.sections[g.0 := PutAll(Base(ld.sections, g.0), g.1)];
  }

  lemma {:induction false} FeedOrder(ld: Loader, order: seq<(string, seq<Setting>)>, utf8: string -> bool)
    requires LoaderOk(ld) && ld.acc == "" && GoodOrder(order, utf8)
    ensures var r := FeedAll(ld, PrintLines(order), utf8);
            r.sections == PutSections(ld.sections, order) && r.acc == "" && r.errors == ld.errors
    decreases |order|
  {
    if order != [] {
      var g := order[0];
      assert GoodGroup(order[0], utf8);
      FeedConcat(ld, [PrintSection(g.0)] + PrintSettings(g.1), PrintLines(order[1..]), utf8);
      FeedGroup(ld, g, utf8);
      FeedOrder(ld.(sections := ld.sections[g.0 := PutAll(Base(ld.sections, g.0), g.1)], cur := g.0), order[1..], utf8);
    }
  }

  // ---------------------------------------------------------------- the round trip

  ghost predicate DistinctKeys(es: seq<Setting>) {
    forall i, j {:trigger es[i], es[j]} | 0 <= i < j < |es| :: es[i].0 != es[j].0
  }

  /** The settings of a section, each once, in some order. */
  ghost predicate Lists(es: seq<Setting>, sec: Section) {
    && DistinctKeys(es)
    && (forall i {:trigger es[i]} | 0 <= i < |es| :: es[i].0 in sec && sec[es[i].0] == es[i].1)
    && (forall k {:trigger sec[k]} | k in sec :: HasKey(es, k))
  }

  ghost predicate HasKey(es: seq<Setting>, k: string) {
    exists i {:trigger es[i]} :: 0 <= i < |es| && es[i].0 == k
  }

  /** Of a section only the settings with a key are printed. */
  function Proper(sec: Section): Section { sec - {""} }

  lemma {:induction false} PutAllKeys(sec: Section, es: seq<Setting>, k: string)
    requires DistinctKeys(es)
    ensures k in PutAll(sec, es) <==> k in sec || (k != "" && HasKey(es, k))
    ensures k in sec && (k == "" || !HasKey(es, k)) ==> PutAll(sec, es)[k] == sec[k]
    ensures forall i {:trigger es[i]} | 0 <= i < |es| && es[i].0 == k != "" :: PutAll(sec, es)[k] == es[i].1
    decreases |es|
  {
    if es != [] {
      var rest := es[1..];
      PutAllKeys(Put(sec, es[0]), rest, k);
      assert HasKey(es, k) <==> es[0].0 == k || HasKey(rest, k) by {
        if HasKey(rest, k) { var i :| 0 <= i < |rest| && rest[i].0 == k; assert es[i + 1] == rest[i]; }
        if HasKey(es, k) && es[0].0 != k { var i :| 0 <= i < |es| && es[i].0 == k; assert rest[i - 1] == es[i]; }
      }
      forall i | 0 <= i < |rest| ensures rest[i].0 != es[0].0 { assert es[i + 1] == rest[i]; }
      forall i | 0 <= i < |es| && es[i].0 == k != "" ensures PutAll(sec, es)[k] == es[i].1 {
        if i > 0 { assert rest[i - 1] == es[i]; }
      }
    }
  }

  lemma PutAllLists(es: seq<Setting>, sec: Section)
    requires Lists(es, sec)
    ensures PutAll(map[], es) == Proper(sec)
  {
    var r := PutAll(map[], es);
    forall k ensures k in r <==> k in Proper(sec) {
      PutAllKeys(map[], es, k);
      if HasKey(es, k) { var i :| 0 <= i < |es| && es[i].0 == k; assert es[i].0 in sec; }
    }
    forall k | k in r ensures r[k] == Proper(sec)[k] {
      PutAllKeys(map[], es, k);
      var i :| 0 <= i < |es| && es[i].0 == k;
    }
  }

  type Group = (string, seq<Setting>)

  ghost predicate DistinctNames(order: seq<Group>) {
    forall i, j {:trigger order[i], order[j]} | 0 <= i < j < |order| :: order[i].0 != order[j].0
  }

  ghost predicate HasName(order: seq<Group>, name: string) {
    exists i {:trigger order[i]} :: 0 <= i < |order| && order[i].0 == name
  }

  /** All sections with all their settings, each once, in some order. */
  ghost predicate Enumerates(order: seq<Group>, cfg: Sections) {
    && DistinctNames(order)
    && (forall i {:trigger order[i]} | 0 <= i < |order| :: order[i].0 in cfg && Lists(order[i].1, cfg[order[i].0]))
    && (forall s {:trigger cfg[s]} | s in cfg :: HasName(order, s))
  }

  lemma {:induction false} PutSectionsNames(m: Sections, order: seq<Group>, s: string)
    requires DistinctNames(order)
    ensures s in PutSections(m, order) <==> s in m || HasName(order, s)
    ensures s in m && !HasName(order, s) ==> PutSections(m, order)[s] == m[s]
    ensures forall i {:trigger order[i]} | 0 <= i < |order| && order[i].0 == s :: PutSections(m, order)[s] == PutAll(Base(m, s), order[i].1)
    decreases |order|
  {
    if order != [] {
      var rest := order[1..];
      PutSectionsNames(m[order[0].0 := PutAll(Base(m, order[0].0), order[0].1)], rest, s);
      assert HasName(order, s) <==> order[0].0 == s || HasName(rest, s) by {
        if HasName(rest, s) { var i :| 0 <= i < |rest| && rest[i].0 == s; assert order[i + 1] == rest[i]; }
        if HasName(order, s) && order[0].0 != s { var i :| 0 <= i < |order| && order[i].0 == s; assert rest[i - 1] == order[i]; }
      }
      forall i | 0 <= i < |rest| ensures rest[i].0 != order[0].0 { assert order[i + 1] == rest[i]; }
      forall i | 0 <= i < |order| && order[i].0 == s ensures PutSections(m, order)[s] == PutAll(Base(m, s), order[i].1) {
        if i > 0 { assert rest[i - 1] == order[i]; }
      }
    }
  }

  /** Printing a configuration and loading the text gives it back, without complaint, in whatever
      order it is printed.  A configuration that was loaded has a global section. */
  lemma {:induction false} RoundTrip(cfg: Sections, order: seq<Group>, utf8: string -> bool)
    requires Enumerates(order, cfg) && GoodOrder(order, utf8) && "global" in cfg
    ensures var r := Load(FRESH, Join(PrintLines(order)), utf8);
            r.errors == 0 && r.sections == map s | s in cfg :: Proper(cfg[s])
  {
    PrintedLines(order, utf8);
    LoadJoin(FRESH, PrintLines(order), utf8);
    FeedOrder(FRESH, order, utf8);
    PutEnumerated(cfg, order);
  }

  lemma {:induction false} PutEnumerated(cfg: Sections, order: seq<Group>)
    requires Enumerates(order, cfg) && "global" in cfg
    ensures PutSections(FRESH.sections, order) == map s | s in cfg :: Proper(cfg[s])
  {
    var m := PutSections(FRESH.sections, order);
    forall s ensures s in m <==> s in cfg {
      PutSectionsNames(FRESH.sections, order, s);
      if HasName(order, s) { var i :| 0 <= i < |order| && order[i].0 == s; assert order[i].0 in cfg; }
    }
    forall s | s in m ensures m[s] == Proper(cfg[s]) {
      PutSectionsNames(FRESH.sections, order, s);
      assert HasName(order, s);
      var i :| 0 <= i < |order| && order[i].0 == s;
      assert Lists(order[i].1, cfg[s]) && Base(FRESH.sections, s) == map[];
      PutAllLists(order[i].1, cfg[s]);
    }
  }

  lemma {:induction false} PrintedSettings(es: seq<Setting>, utf8: string -> bool)
    requires GoodSettings(es, utf8)
    ensures forall l | l in PrintSettings(es) :: '\n' !in l
    decreases |es|
  {
    if es != [] {
      assert GoodSetting(es[0], utf8);
      PrintedSettings(es[1..], utf8);
    }
  }

  lemma {:induction false} PrintedLines(order: seq<Group>, utf8: string -> bool)
    requires GoodOrder(order, utf8)
    ensures forall l | l in PrintLines(order) :: '\n' !in l
    decreases |order|
  {
    if order != [] {
      assert GoodGroup(order[0], utf8);
      PrintedSettings(order[0].1, utf8);
      PrintedLines(order[1..], utf8);
    }
  }

  // ---------------------------------------------------------------- in place

  class ConfFile {
    var sections: Sections

    constructor ()
      ensures sections == map[]
    {
      sections := map[];
    }

    /** Replaces what was there by what the text says; counts the complaints. */
    method Parse(buf: string, utf8: string -> bool) returns (errors: nat)
      modifies this
      ensures sections == Load(FRESH, buf, utf8).sections && errors == Load(FRESH, buf, utf8).errors
    {
      var ld := LoadText(buf, utf8);
      sections, errors := ld.sections, ld.errors;
    }

    /** The value of a key in a section, the key taken in normal form. */
    method Read(section: string, key: string) returns (found: bool, val: string)
      ensures found <==> section in sections && Normalize(key) in sections[section]
      ensures found ==> val == sections[section][Normalize(key)]
    {
      var t := TrimWhitespace(key, true);
      var k := Underscored(t);
      if section !in sections { return false, ""; }
      if k !in sections[section] { return false, ""; }
      return true, sections[section][k];
    }
  }

  /** The loop over the lines. */
  method LoadText(buf: string, utf8: string -> bool) returns (ld: Loader)
    ensures ld == Load(FRESH, buf, utf8)
  {
    ld := FRESH;
    var b := 0;
    assert buf[0..] == buf;
    ghost var goal := Load(FRESH, buf, utf8);
    while b < |buf|
      invariant 0 <= b <= |buf| && LoaderOk(ld) && Load(ld, buf[b..], utf8) == goal
    {
      var n := FindNewline(buf, b);
      LoadStep(ld, buf, b, n, utf8);
      if n == |buf| {
        ld := ld.(errors := ld.errors + 1);
        break;
      }
      ld := Feed(ld, buf[b..n], utf8);
      b := n + 1;
    }
    if ld.acc != "" { ld := ld.(errors := ld.errors + 1); }
  }

  lemma {:induction false} LoadStep(ld: Loader, buf: string, b: nat, n: nat, utf8: string -> bool)
    requires LoaderOk(ld) && b < |buf| && b <= n <= |buf| && Newline(buf[b..]) == n - b
    ensures n == |buf| ==> Load(ld, buf[b..], utf8) == Finish(ld.(errors := ld.errors + 1))
    ensures n < |buf| ==> Load(ld, buf[b..], utf8) == Load(Feed(ld, buf[b..n], utf8), buf[n + 1..], utf8)
  {
    LoadFirst(ld, buf[b..], utf8, n - b);
    if n < |buf| { CutLine(buf, b, n); }
  }

  lemma {:induction false} LoadFirst(ld: Loader, text: string, utf8: string -> bool, n: nat)
    requires LoaderOk(ld) && text != [] && n == Newline(text)
    ensures n == |text| ==> Load(ld, text, utf8) == Finish(ld.(errors := ld.errors + 1))
    ensures n < |text| ==> Load(ld, text, utf8) == Load(Feed(ld, text[..n], utf8), text[n + 1..], utf8)
  {
  }

  lemma CutLine(buf: string, b: nat, n: nat)
    requires b <= n < |buf|
    ensures buf[b..][..n - b] == buf[b..n] && buf[b..][n - b + 1..] == buf[n + 1..]
  {
  }

  method FindNewline(buf: string, b: nat) returns (n: nat)
    requires b <= |buf|
    ensures b <= n <= |buf| && Newline(buf[b..]) == n - b
  {
    n := b;
    while n < |buf| && buf[n] != '\n'
      invariant b <= n <= |buf| && Newline(buf[b..]) == n - b + Newline(buf[n..])
    {
      assert buf[n..][1..] == buf[n + 1..];
      n := n + 1;
    }
  }
}
