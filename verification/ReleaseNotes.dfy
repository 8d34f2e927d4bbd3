/** Rendering a release section from changeset entries. */
module ReleaseNotes {
  import opened Changelog
  import JsText
  import LinePrefixer
  import Sorting

  datatype Bump = Major | Minor | Patch

  datatype Entry = Entry(bumps: seq<(string, Bump)>, summary: string)

  datatype Section = BreakingChanges | Features | Fixes

  const BREAKING_MARKER := "**Breaking:**"
  const SCOPE_PREFIX := "@invisible-string/"
  const DASH := "\U{2014}"

  function SectionTitle(s: Section): string {
    match s
    case BreakingChanges => "Breaking changes"
    case Features => "Features"
    case Fixes => "Fixes & maintenance"
  }

  predicate Bumps(e: Entry, b: Bump) {
    exists i :: 0 <= i < |e.bumps| && e.bumps[i].1 == b
  }

  function Classify(e: Entry): Section {
    if StartsWith(e.summary, BREAKING_MARKER) then BreakingChanges
    else if Bumps(e, Major) then BreakingChanges
    else if Bumps(e, Minor) then Features
    else Fixes
  }

  function ShortName(name: string): string {
    if StartsWith(name, SCOPE_PREFIX) then name[|SCOPE_PREFIX|..] else name
  }

  function ShortNames(bumps: seq<(string, Bump)>): seq<string> {
    if bumps == [] then [] else [ShortName(bumps[0].0)] + ShortNames(bumps[1..])
  }

  function Join(parts: seq<string>, separator: string): string {
    if parts == [] then ""
    else if |parts| == 1 then parts[0]
    else parts[0] + separator + Join(parts[1..], separator)
  }

  function Scope(e: Entry): string {
    Join(Sorting.SortBy(JsText.Ascii, ShortNames(e.bumps)), ", ")
  }

  function Line(e: Entry): string {
    var summary := if StartsWith(e.summary, BREAKING_MARKER) then Trim(e.summary[|BREAKING_MARKER|..]) else e.summary;
    "- **" + Scope(e) + "** " + DASH + " " + summary
  }

  function OfSection(entries: seq<Entry>, s: Section): seq<Entry> {
    if entries == [] then []
    else (if Classify(entries[0]) == s then [entries[0]] else []) + OfSection(entries[1..], s)
  }

  function Lines(entries: seq<Entry>): (r: seq<string>)
    ensures |r| == |entries|
  {
    if entries == [] then [] else [Line(entries[0])] + Lines(entries[1..])
  }

  function TitleLine(s: Section): string {
    "### " + SectionTitle(s)
  }

  function Blocks(entries: seq<Entry>, sections: seq<Section>): seq<string> {
    if sections == [] then [] else
      var lines := Lines(OfSection(entries, sections[0]));
      (if lines == [] then [] else [TitleLine(sections[0]) + "\n" + Join(lines, "\n")]) +
      Blocks(entries, sections[1..])
  }

  const SECTIONS := [BreakingChanges, Features, Fixes]

  function SectionHead(version: string, date: string): string {
    "v" + version + " " + DASH + " " + date
  }

  function SectionRest(entries: seq<Entry>): string {
    "\n" + Join(Blocks(entries, SECTIONS), "\n\n") + "\n"
  }

  function RenderSection(version: string, date: string, entries: seq<Entry>): string {
    "## " + SectionHead(version, date) + "\n\n" + Join(Blocks(entries, SECTIONS), "\n\n") + "\n"
  }

  // ---- lines

  /** Each line followed by a line feed. */
  function Unlines(lines: seq<string>): string {
    if lines == [] then "" else lines[0] + "\n" + Unlines(lines[1..])
  }

  /** A line of its own that does not begin a release section. */
  predicate PlainLine(line: string) {
    '\n' !in line && !StartsWith(line, "## ")
  }

  ghost predicate PlainLines(lines: seq<string>) {
    forall line <- lines :: PlainLine(line)
  }

  lemma {:induction false} UnlinesJoin(lines: seq<string>)
    requires lines != []
    ensures Join(lines, "\n") + "\n" == Unlines(lines)
  {
    if |lines| > 1 {
      UnlinesJoin(lines[1..]);
      assert lines[0] + "\n" + Join(lines[1..], "\n") + "\n" == lines[0] + "\n" + (Join(lines[1..], "\n") + "\n");
    }
  }

  lemma {:induction false} UnlinesConcat(a: seq<string>, b: seq<string>)
    ensures Unlines(a + b) == Unlines(a) + Unlines(b)
  {
    if a == [] {
      assert a + b == b;
    } else {
      assert (a + b)[1..] == a[1..] + b;
      UnlinesConcat(a[1..], b);
      assert a[0] + "\n" + (Unlines(a[1..]) + Unlines(b)) == a[0] + "\n" + Unlines(a[1..]) + Unlines(b);
    }
  }

  lemma StartOfLines(lines: seq<string>)
    requires PlainLines(lines)
    ensures !StartsWith(Unlines(lines), "## ")
  {
    if lines != [] {
      var line, s := lines[0], Unlines(lines);
      assert line in lines;
      if |line| >= 3 {
        assert s[..3] == line[..3];
      } else if |s| >= 3 {
        assert s[..3][|line|] == '\n';
      }
    }
  }

  lemma NotInFirstLine(line: string, rest: string, q: nat)
    requires '\n' !in line && !StartsWith(rest, "## ") && q <= |line|
    ensures !HeadingAfter(line + "\n" + rest, q)
  {
    var s := line + "\n" + rest;
    if q + 4 <= |s| {
      if q < |line| {
        assert s[q..q + 4][0] == line[q];
      } else {
        assert s[q..q + 4][1..] == rest[..3];
      }
    }
  }

  lemma InLaterLines(line: string, rest: string, q: nat)
    requires q > |line|
    ensures HeadingAfter(line + "\n" + rest, q) <==> HeadingAfter(rest, q - |line| - 1)
  {
    var s := line + "\n" + rest;
    if q + 4 <= |s| {
      assert rest[q - |line| - 1..q - |line| + 3] == s[q..q + 4];
    }
  }

  /** No release heading hides in plain lines. */
  lemma {:induction false} NoHeadingInLines(lines: seq<string>, q: nat)
    requires PlainLines(lines)
    ensures !HeadingAfter(Unlines(lines), q)
    decreases lines
  {
    if lines != [] {
      assert lines[0] in lines && PlainLines(lines[1..]);
      if q <= |lines[0]| {
        StartOfLines(lines[1..]);
        NotInFirstLine(lines[0], Unlines(lines[1..]), q);
      } else {
        InLaterLines(lines[0], Unlines(lines[1..]), q);
        NoHeadingInLines(lines[1..], q - |lines[0]| - 1);
      }
    }
  }

  // ---- what a section is made of

  /** Version, date, names and summaries are on one line each. */
  ghost predicate SingleLine(e: Entry) {
    '\n' !in e.summary && forall b <- e.bumps :: '\n' !in b.0
  }

  lemma {:induction false} TrimStartWithin(s: string, c: char)
    requires c !in s
    ensures c !in TrimStart(s)
  {
    if s != "" && IsSpace(s[0]) {
      TrimStartWithin(s[1..], c);
    }
  }

  lemma {:induction false} TrimEndWithin(s: string, c: char)
    requires c !in s
    ensures c !in TrimEnd(s)
  {
    if s != "" && IsSpace(s[|s| - 1]) {
      TrimEndWithin(s[..|s| - 1], c);
    }
  }

  lemma {:induction false} JoinWithin(parts: seq<string>, separator: string, c: char)
    requires c !in separator && forall p <- parts :: c !in p
    ensures c !in Join(parts, separator)
  {
    if |parts| > 1 {
      JoinWithin(parts[1..], separator, c);
      assert parts[0] in parts;
    }
  }

  lemma {:induction false} ShortNamesWithin(bumps: seq<(string, Bump)>, c: char)
    requires forall b <- bumps :: c !in b.0
    ensures forall n <- ShortNames(bumps) :: c !in n
  {
    if bumps != [] {
      assert bumps[0] in bumps;
      ShortNamesWithin(bumps[1..], c);
    }
  }

  lemma SortedWithin(names: seq<string>, c: char)
    requires forall n <- names :: c !in n
    ensures forall n <- Sorting.SortBy(JsText.Ascii, names) :: c !in n
  {
    var sorted := Sorting.SortBy(JsText.Ascii, names);
    Sorting.SortSorts(JsText.Ascii, names);
    forall n | n in sorted ensures c !in n {
      assert n in multiset(sorted);
      assert n in multiset(names);
    }
  }

  lemma ScopeOnOneLine(e: Entry)
    requires forall b <- e.bumps :: '\n' !in b.0
    ensures '\n' !in Scope(e)
  {
    ShortNamesWithin(e.bumps, '\n');
    SortedWithin(ShortNames(e.bumps), '\n');
    JoinWithin(Sorting.SortBy(JsText.Ascii, ShortNames(e.bumps)), ", ", '\n');
  }

  lemma LineIsPlain(e: Entry)
    requires SingleLine(e)
    ensures PlainLine(Line(e))
  {
    ScopeOnOneLine(e);
    if StartsWith(e.summary, BREAKING_MARKER) {
      TrimStartWithin(e.summary[|BREAKING_MARKER|..], '\n');
      TrimEndWithin(TrimStart(e.summary[|BREAKING_MARKER|..]), '\n');
    }
    assert Line(e)[0] == '-';
  }

  lemma {:induction false} LinesArePlain(entries: seq<Entry>)
    requires forall e <- entries :: SingleLine(e)
    ensures PlainLines(Lines(entries))
  {
    if entries != [] {
      assert entries[0] in entries;
      LineIsPlain(entries[0]);
      LinesArePlain(entries[1..]);
    }
  }

  /** The lines of all blocks, a blank line between two of them. */
  function BlockLines(entries: seq<Entry>, sections: seq<Section>): seq<string> {
    if sections == [] then [] else
      var lines := Lines(OfSection(entries, sections[0]));
      var rest := BlockLines(entries, sections[1..]);
      if lines == [] then rest
      else [TitleLine(sections[0])] + lines + (if rest == [] then [] else [""] + rest)
  }

  lemma {:induction false} OfSectionWithin(entries: seq<Entry>, s: Section)
    ensures forall e <- OfSection(entries, s) :: e in entries
  {
    if entries != [] {
      OfSectionWithin(entries[1..], s);
    }
  }

  lemma TitleIsPlain(s: Section)
    ensures PlainLine(TitleLine(s))
  {
    assert TitleLine(s)[2] == '#';
  }

  lemma {:induction false} BlockLinesArePlain(entries: seq<Entry>, sections: seq<Section>)
    requires forall e <- entries :: SingleLine(e)
    ensures PlainLines(BlockLines(entries, sections))
  {
    if sections != [] {
      OfSectionWithin(entries, sections[0]);
      LinesArePlain(OfSection(entries, sections[0]));
      TitleIsPlain(sections[0]);
      BlockLinesArePlain(entries, sections[1..]);
    }
  }

  lemma BlockUnlines(title: string, lines: seq<string>)
    requires lines != []
    ensures title + "\n" + Join(lines, "\n") + "\n" == Unlines([title] + lines)
  {
    UnlinesJoin([title] + lines);
    assert ([title] + lines)[1..] == lines;
  }

  lemma {:induction false} BlocksAreLines(entries: seq<Entry>, sections: seq<Section>)
    ensures Blocks(entries, sections) == [] <==> BlockLines(entries, sections) == []
    ensures Blocks(entries, sections) != [] ==>
              Join(Blocks(entries, sections), "\n\n") + "\n" == Unlines(BlockLines(entries, sections))
  {
    if sections != [] {
      BlocksAreLines(entries, sections[1..]);
      var lines := Lines(OfSection(entries, sections[0]));
      var rest := Blocks(entries, sections[1..]);
      if lines == [] {
        assert [] + rest == rest;
      } else {
        var title := TitleLine(sections[0]);
        BlockUnlines(title, lines);
        JoinBlocks(title + "\n" + Join(lines, "\n"), rest, [title] + lines, BlockLines(entries, sections[1..]));
      }
    }
  }

  lemma JoinBlocks(block: string, rest: seq<string>, lines: seq<string>, restLines: seq<string>)
    requires block + "\n" == Unlines(lines) && (rest == [] <==> restLines == [])
    requires rest != [] ==> Join(rest, "\n\n") + "\n" == Unlines(restLines)
    ensures Join([block] + rest, "\n\n") + "\n" == Unlines(lines + if restLines == [] then [] else [""] + restLines)
  {
    assert ([block] + rest)[1..] == rest;
    if rest == [] {
      assert lines + [] == lines;
    } else {
      UnlinesConcat(lines, [""] + restLines);
      assert ([""] + restLines)[1..] == restLines;
      assert block + "\n\n" + Join(rest, "\n\n") + "\n" == (block + "\n") + ("" + "\n" + (Join(rest, "\n\n") + "\n"));
    }
  }

  lemma BlankFirst(lines: seq<string>)
    ensures Unlines([""] + lines) == "\n" + Unlines(lines)
  {
    assert ([""] + lines)[1..] == lines;
    assert "" + "\n" + Unlines(lines) == "\n" + Unlines(lines);
  }

  lemma RestIsLines(entries: seq<Entry>)
    ensures SectionRest(entries) ==
            Unlines([""] + if BlockLines(entries, SECTIONS) == [] then [""] else BlockLines(entries, SECTIONS))
  {
    var blocks, lines := Blocks(entries, SECTIONS), BlockLines(entries, SECTIONS);
    BlocksAreLines(entries, SECTIONS);
    BlankFirst(if lines == [] then [""] else lines);
    if lines == [] {
      BlankFirst([]);
      assert [""] + [] == [""];
    }
    Regroup3("\n", Join(blocks, "\n\n"), "\n");
  }

  lemma Regroup3(a: string, b: string, c: string)
    ensures a + b + c == a + (b + c)
  {}

  lemma LinesHaveNoHeading(lines: seq<string>)
    requires PlainLines(lines)
    ensures FindHeading(Unlines(lines), 0) == -1
  {
    var r := FindHeading(Unlines(lines), 0);
    FindIsLeast(Unlines(lines), 0);
    if r >= 0 {
      NoHeadingInLines(lines, r);
    }
  }

  lemma RestHasNoHeading(entries: seq<Entry>)
    requires forall e <- entries :: SingleLine(e)
    ensures FindHeading(SectionRest(entries), 0) == -1
  {
    RestIsLines(entries);
    BlockLinesArePlain(entries, SECTIONS);
    assert PlainLine("");
    LinesHaveNoHeading([""] + if BlockLines(entries, SECTIONS) == [] then [""] else BlockLines(entries, SECTIONS));
  }

  lemma HeadOnOneLine(version: string, date: string)
    requires '\n' !in version && '\n' !in date
    ensures '\n' !in SectionHead(version, date)
  {}

  /** A rendered section has one heading line and no other line that looks like one. */
  lemma RenderedIsSection(version: string, date: string, entries: seq<Entry>)
    requires '\n' !in version && '\n' !in date && forall e <- entries :: SingleLine(e)
    ensures IsSection(SectionHead(version, date), SectionRest(entries))
    ensures RenderSection(version, date, entries) == SectionText(SectionHead(version, date), SectionRest(entries))
  {
    RestHasNoHeading(entries);
    HeadOnOneLine(version, date);
    var blocks := Join(Blocks(entries, SECTIONS), "\n\n");
    Regroup(SectionHead(version, date), blocks);
    EndsInNewline("\n" + blocks);
  }

  lemma Regroup(head: string, blocks: string)
    ensures "## " + head + "\n\n" + blocks + "\n" == "## " + head + "\n" + ("\n" + blocks + "\n")
  {}

  lemma EndsInNewline(s: string)
    ensures EndsWithNewline(s + "\n")
  {}

  /** Whatever the changelog held, the section just rendered and inserted is the one read back. */
  lemma RenderedRoundTrip(changelog: string, version: string, date: string, entries: seq<Entry>)
    requires '\n' !in version && '\n' !in date && forall e <- entries :: SingleLine(e)
    ensures ExtractLatestSection(InsertSection(changelog, RenderSection(version, date, entries))) ==
            Some(Latest(Trim(SectionHead(version, date)), Trim(SectionRest(entries))))
  {
    RenderedIsSection(version, date, entries);
    RoundTrip(changelog, SectionHead(version, date), SectionRest(entries));
  }

  // ---- what is printed

  lemma {:induction false} OnlyItsClass(entries: seq<Entry>, s: Section, e: Entry)
    ensures e in OfSection(entries, s) <==> e in entries && Classify(e) == s
  {
    if entries != [] {
      OnlyItsClass(entries[1..], s, e);
      assert entries == [entries[0]] + entries[1..];
    }
  }

  /** The titles of the sections that have entries. */
  function Titles(entries: seq<Entry>, sections: seq<Section>): seq<string> {
    if sections == [] then []
    else
      (if OfSection(entries, sections[0]) == [] then [] else [TitleLine(sections[0])]) +
      Titles(entries, sections[1..])
  }

  function Blanks(n: nat): seq<string> {
    if n == 0 then [] else [""] + Blanks(n - 1)
  }

  /** The lines of the entries of some sections, section by section. */
  function LinesBySection(entries: seq<Entry>, sections: seq<Section>): seq<string> {
    if sections == [] then []
    else Lines(OfSection(entries, sections[0])) + LinesBySection(entries, sections[1..])
  }

  /** The lines of a text are those of the entries, the titles, and a blank line between two titles. */
  ghost predicate Prints(text: seq<string>, lines: seq<string>, titles: seq<string>) {
    && (text == [] <==> titles == [])
    && multiset(text) ==
       multiset(lines) + multiset(titles) + multiset(Blanks(if titles == [] then 0 else |titles| - 1))
  }

  lemma FirstBlockPrints(title: string, lines: seq<string>, rest: seq<string>, later: seq<string>, titles: seq<string>)
    requires Prints(rest, later, titles)
    ensures Prints([title] + lines + (if rest == [] then [] else [""] + rest), lines + later, [title] + titles)
  {
    if titles == [] {
      assert multiset(later) == multiset{} && [title] + lines + [] == [title] + lines;
    } else {
      assert Blanks(|titles|) == [""] + Blanks(|titles| - 1);
    }
  }

  /** A title for each section with entries, a blank line between two sections, and the lines of the entries. */
  lemma {:induction false} BlocksPrint(entries: seq<Entry>, sections: seq<Section>)
    ensures Prints(BlockLines(entries, sections), LinesBySection(entries, sections), Titles(entries, sections))
  {
    if sections != [] {
      BlocksPrint(entries, sections[1..]);
      var lines, rest := Lines(OfSection(entries, sections[0])), BlockLines(entries, sections[1..]);
      var later, titles := LinesBySection(entries, sections[1..]), Titles(entries, sections[1..]);
      if lines == [] {
        assert [] + later == later && [] + titles == titles;
      } else {
        FirstBlockPrints(TitleLine(sections[0]), lines, rest, later, titles);
      }
    }
  }

  lemma ThreeSections(entries: seq<Entry>)
    ensures multiset(LinesBySection(entries, SECTIONS)) ==
            multiset(Lines(OfSection(entries, BreakingChanges))) + multiset(Lines(OfSection(entries, Features))) +
            multiset(Lines(OfSection(entries, Fixes)))
  {
    assert SECTIONS[1..] == [Features, Fixes] && [Features, Fixes][1..] == [Fixes] && [Fixes][1..] == [];
    assert LinesBySection(entries, [Fixes]) == Lines(OfSection(entries, Fixes)) + [];
    assert LinesBySection(entries, [Features, Fixes]) ==
           Lines(OfSection(entries, Features)) + LinesBySection(entries, [Fixes]);
  }

  lemma LinesOfOneMore(entries: seq<Entry>, s: Section)
    requires entries != []
    ensures multiset(Lines(OfSection(entries, s))) == multiset(Lines(OfSection(entries[1..], s))) +
            if Classify(entries[0]) == s then multiset{Line(entries[0])} else multiset{}
  {
    var rest := OfSection(entries[1..], s);
    if Classify(entries[0]) == s {
      assert ([entries[0]] + rest)[1..] == rest;
      assert Lines([entries[0]] + rest) == [Line(entries[0])] + Lines(rest);
    } else {
      assert [] + rest == rest;
    }
  }

  /** The line of every entry goes to one section, that of its class. */
  lemma {:induction false} EachLineOnce(entries: seq<Entry>)
    ensures multiset(Lines(OfSection(entries, BreakingChanges))) + multiset(Lines(OfSection(entries, Features))) +
            multiset(Lines(OfSection(entries, Fixes))) == multiset(Lines(entries))
  {
    if entries != [] {
      EachLineOnce(entries[1..]);
      LinesOfOneMore(entries, BreakingChanges);
      LinesOfOneMore(entries, Features);
      LinesOfOneMore(entries, Fixes);
      OneMoreLine(entries);
    }
  }

  lemma OneMoreLine(entries: seq<Entry>)
    requires entries != []
    ensures multiset(Lines(entries)) == multiset(Lines(entries[1..])) + multiset{Line(entries[0])}
  {
    assert Lines(entries) == [Line(entries[0])] + Lines(entries[1..]);
  }

  /**
   * What a rendered section prints: the line of every entry exactly once, a title for each class that
   * has entries, and blank lines between the classes.
   */
  lemma PrintedOnce(entries: seq<Entry>)
    ensures var lines, titles := BlockLines(entries, SECTIONS), Titles(entries, SECTIONS);
            && SectionRest(entries) == Unlines([""] + if lines == [] then [""] else lines)
            && multiset(lines) ==
               multiset(Lines(entries)) + multiset(titles) + multiset(Blanks(if titles == [] then 0 else |titles| - 1))
  {
    RestIsLines(entries);
    BlocksPrint(entries, SECTIONS);
    ThreeSections(entries);
    EachLineOnce(entries);
  }

  /** One block among the lines, with a blank line on either side where something else is. */
  ghost predicate HasBlock(
    text: seq<string>, before: seq<string>, title: string, lines: seq<string>, after: seq<string>)
  {
    && text == before + [title] + lines + after
    && (before == [] || before[|before| - 1] == "")
    && (after == [] || after[0] == "")
  }

  lemma BlockFirst(title: string, lines: seq<string>, rest: seq<string>)
    ensures HasBlock([title] + lines + (if rest == [] then [] else [""] + rest), [], title, lines,
                     if rest == [] then [] else [""] + rest)
  {
    assert [] + [title] == [title];
  }

  lemma BlockLater(first: seq<string>, rest: seq<string>, before: seq<string>, title: string, lines: seq<string>,
                   after: seq<string>)
    requires HasBlock(rest, before, title, lines, after)
    ensures HasBlock(first + (if rest == [] then [] else [""] + rest), first + [""] + before, title, lines, after)
  {
    assert rest != [];
    assert first + ([""] + (before + [title] + lines + after)) == (first + [""] + before) + [title] + lines + after;
    if before != [] {
      assert (first + [""] + before)[|first + [""] + before| - 1] == before[|before| - 1];
    }
  }

  /** A class with entries is printed as one block: its title, then the lines of its entries in their order. */
  lemma {:induction false} BlockOf(entries: seq<Entry>, sections: seq<Section>, s: Section)
    returns (before: seq<string>, after: seq<string>)
    requires s in sections && OfSection(entries, s) != []
    ensures HasBlock(BlockLines(entries, sections), before, TitleLine(s), Lines(OfSection(entries, s)), after)
  {
    var lines, rest := Lines(OfSection(entries, sections[0])), BlockLines(entries, sections[1..]);
    if sections[0] == s {
      BlockFirst(TitleLine(s), lines, rest);
      before, after := [], if rest == [] then [] else [""] + rest;
    } else {
      before, after := BlockOf(entries, sections[1..], s);
      if lines != [] {
        BlockLater([TitleLine(sections[0])] + lines, rest, before, TitleLine(s), Lines(OfSection(entries, s)), after);
        before := [TitleLine(sections[0])] + lines + [""] + before;
      }
    }
  }

  // ---- where single-line summaries come from

  function Trimmed(lines: seq<string>): seq<string> {
    if lines == [] then []
    else (if Trim(lines[0]) == "" then [] else [Trim(lines[0])]) + Trimmed(lines[1..])
  }

  /** A changeset's body as its summary: its lines trimmed, empty ones dropped, joined by spaces. */
  function Summary(body: string): string {
    Join(Trimmed(LinePrefixer.Split(Trim(body))), " ")
  }

  lemma {:induction false} SplitOnOneLine(text: string)
    ensures forall part <- LinePrefixer.Split(text) :: '\n' !in part
  {
    if text != "" {
      SplitOnOneLine(text[1..]);
      assert LinePrefixer.Split(text[1..])[0] in LinePrefixer.Split(text[1..]);
    }
  }

  lemma {:induction false} TrimmedOnOneLine(lines: seq<string>)
    requires forall line <- lines :: '\n' !in line
    ensures forall line <- Trimmed(lines) :: '\n' !in line
  {
    if lines != [] {
      assert lines[0] in lines;
      TrimStartWithin(lines[0], '\n');
      TrimEndWithin(TrimStart(lines[0]), '\n');
      TrimmedOnOneLine(lines[1..]);
    }
  }

  lemma SummaryOnOneLine(body: string)
    ensures '\n' !in Summary(body)
  {
    SplitOnOneLine(Trim(body));
    TrimmedOnOneLine(LinePrefixer.Split(Trim(body)));
    JoinWithin(Trimmed(LinePrefixer.Split(Trim(body))), " ", '\n');
  }

  // ---- under which heading an entry stands

  ghost predicate HasBump(e: Entry, b: Bump) {
    exists p <- e.bumps :: p.1 == b
  }

  /** The heading for an entry, by its marker and its bumps. */
  ghost function HeadingFor(e: Entry): string {
    if "**Breaking:**" <= e.summary || HasBump(e, Major) then "### Breaking changes"
    else if HasBump(e, Minor) then "### Features"
    else "### Fixes & maintenance"
  }

  /** The entries under a heading, in their order. */
  ghost function EntriesUnder(entries: seq<Entry>, heading: string): seq<Entry> {
    if entries == [] then []
    else (if HeadingFor(entries[0]) == heading then [entries[0]] else []) + EntriesUnder(entries[1..], heading)
  }

  /** A heading with the lines of its entries, or nothing if it has none; then a blank line, if more follows. */
  ghost function Printed(entries: seq<Entry>, heading: string, more: seq<string>): seq<string> {
    var members := EntriesUnder(entries, heading);
    if members == [] then more
    else [heading] + Lines(members) + (if more == [] then [] else [""] + more)
  }

  lemma BumpsIsHas(e: Entry, b: Bump)
    ensures Bumps(e, b) <==> HasBump(e, b)
  {
    if p :| p in e.bumps && p.1 == b {
      var i :| 0 <= i < |e.bumps| && e.bumps[i] == p;
    }
  }

  lemma HeadingIsTitle(e: Entry)
    ensures HeadingFor(e) == TitleLine(Classify(e))
  {
    BumpsIsHas(e, Major);
    BumpsIsHas(e, Minor);
  }

  lemma TitlesDiffer(s: Section, t: Section)
    ensures TitleLine(s) == TitleLine(t) <==> s == t
  {
    assert TitleLine(BreakingChanges)[4] == 'B' && TitleLine(Features)[5] == 'e' && TitleLine(Fixes)[5] == 'i';
    assert TitleLine(Features)[4] == 'F' && TitleLine(Fixes)[4] == 'F';
  }

  lemma {:induction false} UnderIsOfSection(entries: seq<Entry>, s: Section)
    ensures EntriesUnder(entries, TitleLine(s)) == OfSection(entries, s)
  {
    if entries != [] {
      UnderIsOfSection(entries[1..], s);
      HeadingIsTitle(entries[0]);
      TitlesDiffer(Classify(entries[0]), s);
    }
  }

  lemma TitleLines()
    ensures TitleLine(BreakingChanges) == "### Breaking changes" && TitleLine(Features) == "### Features"
    ensures TitleLine(Fixes) == "### Fixes & maintenance"
  {}

  lemma OneBlockPrinted(
    entries: seq<Entry>, s: Section, heading: string, sections: seq<Section>, later: seq<Section>, more: seq<string>)
    requires heading == TitleLine(s) && sections == [s] + later && more == BlockLines(entries, later)
    ensures BlockLines(entries, sections) == Printed(entries, heading, more)
  {
    UnderIsOfSection(entries, s);
    assert sections[1..] == later;
  }

  /** The lines of a section: breaking changes, then features, then the rest, each under its heading. */
  lemma PrintedUnderHeadings(entries: seq<Entry>)
    ensures BlockLines(entries, SECTIONS) ==
            Printed(entries, "### Breaking changes",
                    Printed(entries, "### Features", Printed(entries, "### Fixes & maintenance", [])))
  {
    TitleLines();
    var third := BlockLines(entries, [Fixes]);
    var second := BlockLines(entries, [Features, Fixes]);
    OneBlockPrinted(entries, Fixes, "### Fixes & maintenance", [Fixes], [], []);
    OneBlockPrinted(entries, Features, "### Features", [Features, Fixes], [Fixes], third);
    OneBlockPrinted(entries, BreakingChanges, "### Breaking changes", SECTIONS, [Features, Fixes], second);
  }

  // ---- how a line and a section are written

  /** The names of the packages without the scope of this repository, in order if they are distinct. */
  ghost predicate AreScopes(names: seq<string>, bumps: seq<(string, Bump)>) {
    && multiset(names) == multiset(ShortNames(bumps))
    && (Sorting.DistinctKeys(JsText.Ascii, ShortNames(bumps)) ==> Sorting.InCodeUnitOrder(JsText.Ascii, names))
  }

  lemma {:induction false} ShortNameAt(bumps: seq<(string, Bump)>, k: nat)
    requires k < |bumps|
    ensures |ShortNames(bumps)| == |bumps|
    ensures bumps[k].0 == "@invisible-string/" + ShortNames(bumps)[k] ||
            (bumps[k].0 == ShortNames(bumps)[k] && !("@invisible-string/" <= bumps[k].0))
  {
    ShortNamesLength(bumps);
    if k > 0 {
      ShortNameAt(bumps[1..], k - 1);
    } else if StartsWith(bumps[0].0, SCOPE_PREFIX) {
      assert bumps[0].0 == bumps[0].0[..|SCOPE_PREFIX|] + bumps[0].0[|SCOPE_PREFIX|..];
    }
  }

  lemma {:induction false} ShortNamesLength(bumps: seq<(string, Bump)>)
    ensures |ShortNames(bumps)| == |bumps|
  {
    if bumps != [] { ShortNamesLength(bumps[1..]); }
  }

  /** An entry's line: its packages, then its summary without the marker. */
  lemma LineIs(e: Entry) returns (names: seq<string>)
    ensures AreScopes(names, e.bumps)
    ensures Line(e) == "- **" + Join(names, ", ") + "** \U{2014} " +
                       if "**Breaking:**" <= e.summary then Trim(e.summary[13..]) else e.summary
  {
    names := Sorting.SortBy(JsText.Ascii, ShortNames(e.bumps));
    Sorting.SortSorts(JsText.Ascii, ShortNames(e.bumps));
    Sorting.AscendingIsCodeUnitOrder(JsText.Ascii, names);
    Dashed(Join(names, ", "));
  }

  lemma Dashed(scope: string)
    ensures "- **" + scope + "** " + DASH + " " == "- **" + scope + "** \U{2014} "
  {
    assert "** " + DASH + " " == "** \U{2014} ";
  }
}
