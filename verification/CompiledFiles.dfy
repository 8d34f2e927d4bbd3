/** What is in the file map of a compiled agent, path by path. */
module CompiledFiles {
  import opened JsText
  import opened Sorting
  import opened AgentHash
  import opened Compile
  import C = CanonicalJson

  type Pairs = seq<(JsString, JsString)>

  // ---- the last writer of a path

  ghost predicate LastPair(pairs: Pairs, j: nat, path: JsString) {
    && j < |pairs| && pairs[j].0 == path
    && forall k :: j < k < |pairs| ==> pairs[k].0 != path
  }

  /** Two maps agree on a path. */
  ghost predicate SameAt(files: Files, before: Files, path: JsString) {
    (path in files <==> path in before) && (path in files ==> files[path] == before[path])
  }

  ghost predicate PairsWrite(pairs: Pairs, path: JsString) {
    exists j :: 0 <= j < |pairs| && pairs[j].0 == path
  }

  lemma {:induction false} AddAllWrites(files: Files, pairs: Pairs, path: JsString) returns (j: nat)
    ensures var r := AddAll(files, pairs);
            if PairsWrite(pairs, path) then LastPair(pairs, j, path) && path in r && r[path] == pairs[j].1
            else SameAt(r, files, path)
    decreases |pairs|
  {
    j := 0;
    if pairs != [] {
      var tail := pairs[1..];
      var k := AddAllWrites(files[pairs[0].0 := pairs[0].1], tail, path);
      if PairsWrite(tail, path) {
        j := k + 1;
        assert pairs[j].0 == path;
      } else {
        forall i | 0 < i < |pairs| ensures pairs[i].0 != path {
          assert pairs[i] == tail[i - 1];
        }
      }
    }
  }

  /** The j-th file of the i-th skill is the last one that any skill emits at `path`. */
  ghost predicate LastSkillFile(tc: Toolchain, skills: seq<Entry>, i: nat, j: nat, path: JsString) {
    && i < |skills| && LastPair(tc.emitSkill(skills[i]), j, path)
    && forall k :: i < k < |skills| ==> !PairsWrite(tc.emitSkill(skills[k]), path)
  }

  function SkillText(tc: Toolchain, skills: seq<Entry>, i: nat, j: nat): JsString
    requires i < |skills| && j < |tc.emitSkill(skills[i])|
  {
    tc.emitSkill(skills[i])[j].1
  }

  ghost predicate SkillsWrite(tc: Toolchain, skills: seq<Entry>, path: JsString) {
    exists i :: 0 <= i < |skills| && PairsWrite(tc.emitSkill(skills[i]), path)
  }

  lemma {:induction false} AddSkillsWrites(tc: Toolchain, files: Files, skills: seq<Entry>, path: JsString)
    returns (i: nat, j: nat)
    ensures var r := AddSkills(tc, files, skills);
            if SkillsWrite(tc, skills, path) then
              LastSkillFile(tc, skills, i, j, path) && path in r && r[path] == SkillText(tc, skills, i, j)
            else SameAt(r, files, path)
    decreases |skills|
  {
    i, j := 0, 0;
    if skills != [] {
      var tail := skills[1..];
      var k, l := AddSkillsWrites(tc, AddAll(files, tc.emitSkill(skills[0])), tail, path);
      if SkillsWrite(tc, tail, path) {
        i, j := k + 1, l;
        assert PairsWrite(tc.emitSkill(skills[i]), path);
      } else {
        j := AddAllWrites(files, tc.emitSkill(skills[0]), path);
        forall m | 0 < m < |skills| ensures !PairsWrite(tc.emitSkill(skills[m]), path) {
          assert skills[m] == tail[m - 1];
        }
      }
    }
  }

  // ---- connections

  /** `agent/connections/<slug>.ts` */
  ghost predicate IsConnectionFile(e: Entry, path: JsString) {
    path == Ascii("agent/connections/") + e.slug + Ascii(".ts")
  }

  lemma ConnectionFilesDiffer(a: Entry, b: Entry, path: JsString)
    requires IsConnectionFile(a, path) && IsConnectionFile(b, path)
    ensures a.slug == b.slug
  {
    var n := |Ascii("agent/connections/")|;
    assert a.slug == path[n..|path| - 3] && b.slug == path[n..|path| - 3];
  }

  lemma DistinctTail(entries: seq<Entry>)
    requires entries != [] && DistinctKeys(SlugOf, entries)
    ensures DistinctKeys(SlugOf, entries[1..]) && forall e <- entries[1..] :: e.slug != entries[0].slug
  {
    var tail := entries[1..];
    forall i, j | 0 <= i < j < |tail| ensures SlugOf(tail[i]) != SlugOf(tail[j]) {
      assert SlugOf(entries[i + 1]) != SlugOf(entries[j + 1]);
    }
    forall e <- tail ensures e.slug != entries[0].slug {
      var j :| 0 <= j < |tail| && tail[j] == e;
      assert SlugOf(entries[0]) != SlugOf(entries[j + 1]);
    }
  }

  ghost predicate Written(
    at: Entry -> JsString, text: Entry -> JsString, files: Files, entries: seq<Entry>, path: JsString, r: Files)
  {
    && (forall e <- entries :: at(e) == path ==> path in r && r[path] == text(e))
    && ((forall e <- entries :: at(e) != path) ==> SameAt(r, files, path))
  }

  /** The first entry is written before the others, at a path that is none of theirs. */
  lemma OneMoreWritten(
    at: Entry -> JsString, text: Entry -> JsString, files: Files, head: Entry, tail: seq<Entry>, path: JsString,
    r: Files)
    requires Written(at, text, files[at(head) := text(head)], tail, path, r)
    requires forall e <- tail :: at(e) != at(head)
    ensures Written(at, text, files, [head] + tail, path, r)
  {}

  lemma {:induction false} AddConnectionsWrites(tc: Toolchain, files: Files, connections: seq<Entry>, path: JsString)
    requires DistinctKeys(SlugOf, connections)
    ensures Written(ConnectionPath, tc.emitConnection, files, connections, path, AddConnections(tc, files, connections))
    decreases |connections|
  {
    if connections != [] {
      var head, tail := connections[0], connections[1..];
      assert connections == [head] + tail;
      DistinctTail(connections);
      OthersElsewhere(head, tail);
      var first := files[ConnectionPath(head) := tc.emitConnection(head)];
      AddConnectionsWrites(tc, first, tail, path);
      OneMoreWritten(ConnectionPath, tc.emitConnection, files, head, tail, path, AddConnections(tc, first, tail));
    }
  }

  lemma OthersElsewhere(head: Entry, tail: seq<Entry>)
    requires forall e <- tail :: e.slug != head.slug
    ensures forall e <- tail :: ConnectionPath(e) != ConnectionPath(head)
  {
    forall e <- tail ensures ConnectionPath(e) != ConnectionPath(head) {
      if ConnectionPath(e) == ConnectionPath(head) {
        ConnectionFilesDiffer(head, e, ConnectionPath(head));
      }
    }
  }

  // ---- the files that do not depend on an entry

  /** A path, its text, and whether the compiler writes it. */
  datatype Row = Row(path: JsString, text: JsString, written: bool)

  /** The files that do not come from an entry. */
  ghost function FixedFiles(tc: Toolchain, sorted: Deps, instructions: JsString, hash: JsString): seq<Row> {
    [ Row(Ascii("package.json"), tc.packageJson(sorted), true),
      Row(Ascii("tsconfig.json"), tc.tsconfig, true),
      Row(Ascii("agent/agent.ts"), tc.agentTs(sorted), true),
      Row(Ascii("agent/instructions.md"), instructions, true),
      Row(Ascii("agent/lib/platform-auth.ts"), tc.platformAuth(sorted.dev == Some(true), hash), true),
      Row(Ascii("agent/lib/env.ts"), tc.envLib, exists e <- sorted.connections :: tc.needsEnv(e)),
      Row(Ascii("agent/lib/platform-token.ts"), tc.tokenLib, exists e <- sorted.connections :: tc.usesOauth(e)),
      Row(Ascii("agent/channels/eve.ts"), tc.eveChannel(sorted), true) ]
  }

  /** Exactly the rows that are written are in the map, each with its text. */
  ghost predicate HoldsRows(files: Files, rows: seq<Row>, path: JsString) {
    && (forall r <- rows :: r.path == path ==> (path in files <==> r.written))
    && (forall r <- rows :: r.path == path && r.written ==> path in files && files[path] == r.text)
    && (path in files ==> exists r <- rows :: r.path == path && r.written)
  }

  function WriteRows(files: Files, rows: seq<Row>): Files {
    if rows == [] then files
    else
      var r, before := rows[|rows| - 1], WriteRows(files, rows[..|rows| - 1]);
      if r.written then before[r.path := r.text] else before
  }

  ghost predicate PathsDiffer(rows: seq<Row>) {
    forall i, j :: 0 <= i < j < |rows| ==> rows[i].path != rows[j].path
  }

  lemma {:induction false} WriteRowsHolds(rows: seq<Row>, path: JsString)
    requires PathsDiffer(rows)
    ensures HoldsRows(WriteRows(map[], rows), rows, path)
  {
    if rows != [] {
      var init, r := rows[..|rows| - 1], rows[|rows| - 1];
      WriteRowsHolds(init, path);
      assert rows == init + [r];
      LastDiffers(rows);
      OneMoreRow(WriteRows(map[], init), init, r, path);
    }
  }

  lemma LastDiffers(rows: seq<Row>)
    requires rows != [] && PathsDiffer(rows)
    ensures forall q <- rows[..|rows| - 1] :: q.path != rows[|rows| - 1].path
  {
    forall q <- rows[..|rows| - 1] ensures q.path != rows[|rows| - 1].path {
      var i :| 0 <= i < |rows| - 1 && rows[i] == q;
    }
  }

  lemma OneMoreRow(files: Files, init: seq<Row>, r: Row, path: JsString)
    requires HoldsRows(files, init, path) && forall q <- init :: q.path != r.path
    ensures HoldsRows(if r.written then files[r.path := r.text] else files, init + [r], path)
  {
    if path == r.path {
      assert path !in files;
    }
  }

  /** The rows as the compiler writes them: a map of five, two conditional ones and a last one. */
  function InOrder(rows: seq<Row>): Files
    requires |rows| == 8
  {
    var files: Files := map[rows[0].path := rows[0].text, rows[1].path := rows[1].text,
                            rows[2].path := rows[2].text, rows[3].path := rows[3].text,
                            rows[4].path := rows[4].text];
    var files := if rows[5].written then files[rows[5].path := rows[5].text] else files;
    var files := if rows[6].written then files[rows[6].path := rows[6].text] else files;
    files[rows[7].path := rows[7].text]
  }

  ghost predicate OnlyTwoConditional(rows: seq<Row>) {
    && |rows| == 8
    && rows[0].written && rows[1].written && rows[2].written && rows[3].written && rows[4].written
    && rows[7].written
  }

  lemma WriteEight(rows: seq<Row>)
    requires OnlyTwoConditional(rows)
    ensures WriteRows(map[], rows) == InOrder(rows)
  {
    FirstFive(rows);
    OneRow(rows, 5);
    OneRow(rows, 6);
    OneRow(rows, 7);
  }

  lemma FirstFive(rows: seq<Row>)
    requires OnlyTwoConditional(rows)
    ensures WriteRows(map[], rows[..5]) ==
            map[rows[0].path := rows[0].text, rows[1].path := rows[1].text, rows[2].path := rows[2].text,
                rows[3].path := rows[3].text, rows[4].path := rows[4].text]
  {
    OneRow(rows, 4);
    OneRow(rows, 3);
    OneRow(rows, 2);
    OneRow(rows, 1);
    OneRow(rows, 0);
  }

  lemma OneRow(rows: seq<Row>, n: nat)
    requires n < |rows|
    ensures WriteRows(map[], rows[..n + 1]) ==
            var before := WriteRows(map[], rows[..n]);
            if rows[n].written then before[rows[n].path := rows[n].text] else before
    ensures n + 1 == |rows| ==> rows[..n + 1] == rows
  {
    assert rows[..n + 1][..n] == rows[..n];
  }

  lemma FixedRows(tc: Toolchain, sorted: Deps, instructions: JsString, hash: JsString)
    ensures OnlyTwoConditional(FixedFiles(tc, sorted, instructions, hash))
    ensures InOrder(FixedFiles(tc, sorted, instructions, hash)) == BaseFiles(tc, sorted, instructions, hash)
  {
    AnyIsExists(tc.needsEnv, sorted.connections);
    AnyIsExists(tc.usesOauth, sorted.connections);
  }

  lemma AnyIsExists(p: Entry -> bool, entries: seq<Entry>)
    ensures AnyEntry(p, entries) <==> exists e <- entries :: p(e)
  {
    if e :| e in entries && p(e) {
      var i :| 0 <= i < |entries| && entries[i] == e;
    }
  }

  /** What tells the fixed paths apart: their lengths, and one unit. */
  ghost predicate Apart(rows: seq<Row>) {
    && |rows| == 8
    && |rows[0].path| == 12 && |rows[1].path| == 13 && |rows[2].path| == 14 && |rows[3].path| == 21
    && |rows[4].path| == 26 && |rows[5].path| == 16 && |rows[6].path| == 27 && |rows[7].path| == 21
    && rows[3].path[6] != rows[7].path[6]
  }

  lemma FixedApart(tc: Toolchain, sorted: Deps, instructions: JsString, hash: JsString)
    ensures Apart(FixedFiles(tc, sorted, instructions, hash))
  {
    assert Ascii("agent/instructions.md")[6] == Code('i') && Ascii("agent/channels/eve.ts")[6] == Code('c');
  }

  lemma ApartDiffer(rows: seq<Row>)
    requires Apart(rows)
    ensures PathsDiffer(rows)
  {}

  /** What tells the fixed paths from those of connections. */
  ghost predicate Elsewhere(rows: seq<Row>) {
    && |rows| == 8 && (forall r <- rows :: |r.path| > 7)
    && rows[0].path[6] == 0x65 && rows[1].path[6] == 0x69 && rows[2].path[6] == 0x61 && rows[3].path[6] == 0x69
    && rows[4].path[6] == 0x6C && rows[5].path[6] == 0x6C && rows[6].path[6] == 0x6C && rows[7].path[7] == 0x68
  }

  lemma FixedElsewhere(tc: Toolchain, sorted: Deps, instructions: JsString, hash: JsString)
    ensures Elsewhere(FixedFiles(tc, sorted, instructions, hash))
  {}

  lemma ConnectionPathUnits(e: Entry)
    ensures |ConnectionPath(e)| > 7 && ConnectionPath(e)[6] == 0x63 && ConnectionPath(e)[7] == 0x6F
  {}

  lemma ElsewhereDiffers(rows: seq<Row>, path: JsString)
    requires Elsewhere(rows) && |path| > 7 && path[6] == 0x63 && path[7] == 0x6F
    ensures forall r <- rows :: r.path != path
  {}

  lemma FixedAreNoConnections(tc: Toolchain, sorted: Deps, instructions: JsString, hash: JsString, e: Entry)
    ensures forall r <- FixedFiles(tc, sorted, instructions, hash) :: r.path != ConnectionPath(e)
  {
    FixedElsewhere(tc, sorted, instructions, hash);
    ConnectionPathUnits(e);
    ElsewhereDiffers(FixedFiles(tc, sorted, instructions, hash), ConnectionPath(e));
  }

  // ---- the whole map

  /**
   * What a path holds: the text of the last skill file at it, if there is one; else the text of the
   * connection it is the file of and what the compiler writes there itself. No other path is there.
   */
  ghost predicate Layout(
    tc: Toolchain, sorted: Deps, instructions: JsString, hash: JsString, files: Files, path: JsString)
  {
    if SkillsWrite(tc, sorted.skills, path) then
      && path in files
      && exists i, j ::
           LastSkillFile(tc, sorted.skills, i, j, path) && files[path] == SkillText(tc, sorted.skills, i, j)
    else
      var rows := FixedFiles(tc, sorted, instructions, hash);
      && (forall e <- sorted.connections :: IsConnectionFile(e, path) ==>
            path in files && files[path] == tc.emitConnection(e))
      && (forall r <- rows :: r.path == path ==> (path in files <==> r.written))
      && (forall r <- rows :: r.path == path && r.written ==> files[path] == r.text)
      && (path in files ==>
            (exists e <- sorted.connections :: IsConnectionFile(e, path)) || exists r <- rows :: r.path == path)
  }

  lemma AllFilesLayout(tc: Toolchain, sorted: Deps, instructions: JsString, hash: JsString, path: JsString)
    requires DistinctKeys(SlugOf, sorted.connections)
    ensures Layout(tc, sorted, instructions, hash, AllFiles(tc, sorted, instructions, hash), path)
  {
    var base := BaseFiles(tc, sorted, instructions, hash);
    var files := AddConnections(tc, base, sorted.connections);
    FixedHolds(tc, sorted, instructions, hash, path);
    AddConnectionsWrites(tc, base, sorted.connections, path);
    if e :| e in sorted.connections && IsConnectionFile(e, path) {
      FixedAreNoConnections(tc, sorted, instructions, hash, e);
    }
    var i, j := AddSkillsWrites(tc, files, sorted.skills, path);
  }

  lemma FixedHolds(tc: Toolchain, sorted: Deps, instructions: JsString, hash: JsString, path: JsString)
    ensures HoldsRows(BaseFiles(tc, sorted, instructions, hash), FixedFiles(tc, sorted, instructions, hash), path)
  {
    var rows := FixedFiles(tc, sorted, instructions, hash);
    FixedApart(tc, sorted, instructions, hash);
    ApartDiffer(rows);
    FixedRows(tc, sorted, instructions, hash);
    WriteEight(rows);
    WriteRowsHolds(rows, path);
  }

  /** The entries in code-unit order of their slugs, everything else as it is. */
  ghost predicate SortedInput(deps: Deps, sorted: Deps) {
    && sorted == deps.(connections := sorted.connections, skills := sorted.skills)
    && multiset(sorted.connections) == multiset(deps.connections)
    && multiset(sorted.skills) == multiset(deps.skills)
    && InCodeUnitOrder(SlugOf, sorted.connections) && InCodeUnitOrder(SlugOf, sorted.skills)
  }

  lemma SortedIsSortedInput(deps: Deps)
    requires DistinctSlugs(deps)
    ensures SortedInput(deps, Sorted(deps)) && DistinctSlugs(Sorted(deps))
  {
    SortIsCodeUnitOrder(SlugOf, deps.connections);
    SortIsCodeUnitOrder(SlugOf, deps.skills);
    PermutationKeepsDistinctKeys(SlugOf, deps.connections, Sorted(deps).connections);
    PermutationKeepsDistinctKeys(SlugOf, deps.skills, Sorted(deps).skills);
  }

  /**
   * What compile returns: the SHA-256 of the canonical text of its input, and at every path what the
   * generators give for the input with its entries sorted. That hash is the one in the platform-auth file.
   */
  lemma CompiledFilesAre(tc: Toolchain, definition: C.Value, deps: Deps)
    returns (def: Definition, sorted: Deps, instructions: JsString)
    requires WellFormedDeps(deps) && SoundParse(tc, definition) && CompileOutcome(tc, definition, deps).Compiled?
    ensures tc.parse(definition) == Some(def) && C.WellFormed(def.json) && SortedInput(deps, sorted)
    ensures tc.renderInstructions(def, sorted) == Some(instructions)
    ensures var text := HashText(def.json, deps, tc.compilerVersion);
            text.Ok? && CompileOutcome(tc, definition, deps).hash == tc.sha256(text.value)
    ensures var r := CompileOutcome(tc, definition, deps);
            forall path :: Layout(tc, sorted, instructions, r.hash, r.files, path)
  {
    def, sorted := tc.parse(definition).value, Sorted(deps);
    instructions := tc.renderInstructions(def, sorted).value;
    AcceptedSlugsDistinct(tc, def, deps);
    SortedIsSortedInput(deps);
    var r := CompileOutcome(tc, definition, deps);
    forall path ensures Layout(tc, sorted, instructions, r.hash, r.files, path) {
      AllFilesLayout(tc, sorted, instructions, r.hash, path);
    }
  }

  /**
   * Compile accepts an input if and only if the definition parses, the checks of its header, connections
   * and skills pass, both joins hold, every reference in the instructions resolves, and the input has a
   * canonical text.
   */
  lemma CompileAccepts(tc: Toolchain, definition: C.Value, deps: Deps)
    requires WellFormedDeps(deps) && SoundParse(tc, definition)
    ensures CompileOutcome(tc, definition, deps).Compiled? <==>
            && tc.parse(definition).Some?
            && var def := tc.parse(definition).value;
            && tc.depsError(def, deps.(connections := [], skills := [])).None?
            && Joins(def.connectionIds, deps.connections) && Joins(def.skillIds, deps.skills)
            && (forall e <- deps.connections :: tc.connectionError(e).None?)
            && (forall e <- deps.skills :: tc.skillError(e).None?)
            && tc.renderInstructions(def, Sorted(deps)).Some?
            && HashText(def.json, deps, tc.compilerVersion).Ok?
  {
    if tc.parse(definition).Some? {
      var def := tc.parse(definition).value;
      JoinAccepts(def.connectionIds, deps.connections);
      JoinAccepts(def.skillIds, deps.skills);
      FirstErrorNone(tc.connectionError, deps.connections);
      FirstErrorNone(tc.skillError, deps.skills);
    }
  }
}
