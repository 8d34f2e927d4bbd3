/** `compile`: validation, sorting and the file map, with the code generators
    as parameters. Its outcome does not depend on the order of its inputs. */
module Compile {
  import opened JsText
  import opened Sorting
  import opened AgentHash
  import C = CanonicalJson

  /** A parsed agent definition: the JSON value and the parts compile reads. */
  datatype Definition = Definition(json: C.Value, connectionIds: seq<JsString>, skillIds: seq<JsString>)

  /** Code that compile calls: the schema, the field checks, the emitters. */
  datatype Toolchain = Toolchain(
    compilerVersion: JsString,
    parse: C.Value -> Option<Definition>,
    depsError: (Definition, Deps) -> Option<JsString>,
    connectionError: Entry -> Option<JsString>,
    skillError: Entry -> Option<JsString>,
    renderInstructions: (Definition, Deps) -> Option<JsString>,
    sha256: JsString -> JsString,
    packageJson: Deps -> JsString,
    tsconfig: JsString,
    agentTs: Deps -> JsString,
    platformAuth: (bool, JsString) -> JsString,
    needsEnv: Entry -> bool,
    envLib: JsString,
    usesOauth: Entry -> bool,
    tokenLib: JsString,
    eveChannel: Deps -> JsString,
    emitConnection: Entry -> JsString,
    emitSkill: Entry -> seq<(JsString, JsString)>)

  datatype Error =
    | InvalidDefinition
    | InvalidDeps(message: JsString)
    | MissingEntry(id: JsString)
    | UnexpectedEntry(id: JsString)
    | InvalidSlug(slug: JsString)
    | DuplicateSlug(slug: JsString)
    | UnresolvedReference
    | NotCanonical

  type Files = map<JsString, JsString>

  datatype Outcome = Compiled(files: Files, hash: JsString) | Failed(error: Error)

  // ---- validateJoin ----

  predicate IsSlugUnit(u: Unit) { 0x61 <= u <= 0x7A || 0x30 <= u <= 0x39 }

  /** Lowercase kebab-case, 1 to 64 units, no hyphen at either end. */
  predicate IsSlug(s: JsString) {
    && 1 <= |s| <= 64
    && IsSlugUnit(s[0]) && IsSlugUnit(s[|s| - 1])
    && forall i :: 0 <= i < |s| ==> IsSlugUnit(s[i]) || s[i] == 0x2D
  }

  predicate HasId(entries: seq<Entry>, id: JsString) { exists i :: 0 <= i < |entries| && entries[i].id == id }

  function FirstMissing(ids: seq<JsString>, resolved: seq<Entry>): Option<Error> {
    if ids == [] then None
    else if !HasId(resolved, ids[0]) then Some(MissingEntry(ids[0]))
    else FirstMissing(ids[1..], resolved)
  }

  function FirstUnexpected(ids: seq<JsString>, resolved: seq<Entry>): Option<Error> {
    if resolved == [] then None
    else if resolved[0].id !in ids then Some(UnexpectedEntry(resolved[0].id))
    else FirstUnexpected(ids, resolved[1..])
  }

  function SlugError(resolved: seq<Entry>, seen: set<JsString>): Option<Error> {
    if resolved == [] then None
    else if !IsSlug(resolved[0].slug) then Some(InvalidSlug(resolved[0].slug))
    else if resolved[0].slug in seen then Some(DuplicateSlug(resolved[0].slug))
    else SlugError(resolved[1..], seen + {resolved[0].slug})
  }

  function JoinError(ids: seq<JsString>, resolved: seq<Entry>): Option<Error> {
    match FirstMissing(ids, resolved)
    case Some(e) => Some(e)
    case None =>
      match FirstUnexpected(ids, resolved)
      case Some(e) => Some(e)
      case None => SlugError(resolved, {})
  }

  method ValidateJoin(ids: seq<JsString>, resolved: seq<Entry>) returns (error: Option<Error>)
    ensures error == JoinError(ids, resolved)
  {
    var resolvedById: map<JsString, Entry> := map[];
    for i := 0 to |resolved|
      invariant forall id :: id in resolvedById <==> HasId(resolved[..i], id)
    {
      assert resolved[..i + 1] == resolved[..i] + [resolved[i]];
      forall id ensures HasId(resolved[..i + 1], id) <==> HasId(resolved[..i], id) || id == resolved[i].id {
        if HasId(resolved[..i], id) {
          var k :| 0 <= k < i && resolved[..i][k].id == id;
          assert resolved[..i + 1][k].id == id;
        }
        assert resolved[..i + 1][i].id == resolved[i].id;
      }
      resolvedById := resolvedById[resolved[i].id := resolved[i]];
    }
    assert resolved[..|resolved|] == resolved;
    for i := 0 to |ids|
      invariant FirstMissing(ids, resolved) == FirstMissing(ids[i..], resolved)
    {
      if ids[i] !in resolvedById { return Some(MissingEntry(ids[i])); }
    }
    var referenced := set id | id in ids;
    for i := 0 to |resolved|
      invariant FirstUnexpected(ids, resolved) == FirstUnexpected(ids, resolved[i..])
    {
      if resolved[i].id !in referenced { return Some(UnexpectedEntry(resolved[i].id)); }
    }
    var seenSlugs: set<JsString> := {};
    for i := 0 to |resolved|
      invariant SlugError(resolved, {}) == SlugError(resolved[i..], seenSlugs)
    {
      var slug := resolved[i].slug;
      if !IsSlug(slug) { return Some(InvalidSlug(slug)); }
      if slug in seenSlugs { return Some(DuplicateSlug(slug)); }
      seenSlugs := seenSlugs + {slug};
    }
    return None;
  }

  lemma {:induction false} FirstMissingNone(ids: seq<JsString>, resolved: seq<Entry>)
    ensures FirstMissing(ids, resolved).None? <==> forall id <- ids :: HasId(resolved, id)
  {
    if ids != [] {
      FirstMissingNone(ids[1..], resolved);
      assert ids == [ids[0]] + ids[1..];
    }
  }

  lemma {:induction false} FirstUnexpectedNone(ids: seq<JsString>, resolved: seq<Entry>)
    ensures FirstUnexpected(ids, resolved).None? <==> forall e <- resolved :: e.id in ids
  {
    if resolved != [] {
      FirstUnexpectedNone(ids, resolved[1..]);
      assert resolved == [resolved[0]] + resolved[1..];
    }
  }

  lemma {:induction false} SlugErrorNone(resolved: seq<Entry>, seen: set<JsString>)
    ensures SlugError(resolved, seen).None? <==>
            && (forall e <- resolved :: IsSlug(e.slug) && e.slug !in seen)
            && DistinctKeys(SlugOf, resolved)
  {
    if resolved != [] {
      var e, tail := resolved[0], resolved[1..];
      SlugErrorNone(tail, seen + {e.slug});
      assert resolved == [e] + tail;
      if SlugError(resolved, seen).None? {
        forall i, j | 0 <= i < j < |resolved| ensures SlugOf(resolved[i]) != SlugOf(resolved[j]) {
          assert resolved[j] == tail[j - 1] && tail[j - 1] in tail;
          if i > 0 { assert SlugOf(tail[i - 1]) != SlugOf(tail[j - 1]); }
        }
      }
      if DistinctKeys(SlugOf, resolved) {
        forall f | f in tail ensures f.slug != e.slug {
          var j :| 0 <= j < |tail| && tail[j] == f;
          assert SlugOf(resolved[0]) != SlugOf(resolved[j + 1]);
        }
        forall i, j | 0 <= i < j < |tail| ensures SlugOf(tail[i]) != SlugOf(tail[j]) {
          assert SlugOf(resolved[i + 1]) != SlugOf(resolved[j + 1]);
        }
      }
    }
  }

  ghost predicate Joins(ids: seq<JsString>, resolved: seq<Entry>) {
    && (forall id <- ids :: exists e <- resolved :: e.id == id)
    && (forall e <- resolved :: e.id in ids)
    && (forall e <- resolved :: IsSlug(e.slug))
    && DistinctKeys(SlugOf, resolved)
  }

  /** The join is accepted exactly when the referenced and the resolved ids are
      the same and the resolved slugs are well-formed and distinct. */
  lemma JoinAccepts(ids: seq<JsString>, resolved: seq<Entry>)
    ensures JoinError(ids, resolved).None? <==> Joins(ids, resolved)
  {
    FirstMissingNone(ids, resolved);
    FirstUnexpectedNone(ids, resolved);
    SlugErrorNone(resolved, {});
    forall id ensures HasId(resolved, id) <==> exists e <- resolved :: e.id == id {
      if HasId(resolved, id) {
        var i :| 0 <= i < |resolved| && resolved[i].id == id;
        assert resolved[i] in resolved;
      }
    }
  }

  // ---- compile ----

  function FirstError(check: Entry -> Option<JsString>, entries: seq<Entry>): Option<JsString> {
    if entries == [] then None
    else if check(entries[0]).Some? then check(entries[0])
    else FirstError(check, entries[1..])
  }

  function DepsError(tc: Toolchain, def: Definition, deps: Deps): Option<Error> {
    match tc.depsError(def, deps.(connections := [], skills := []))
    case Some(m) => Some(InvalidDeps(m))
    case None =>
      match JoinError(def.connectionIds, deps.connections)
      case Some(e) => Some(e)
      case None =>
        match JoinError(def.skillIds, deps.skills)
        case Some(e) => Some(e)
        case None =>
          match FirstError(tc.connectionError, deps.connections)
          case Some(m) => Some(InvalidDeps(m))
          case None =>
            match FirstError(tc.skillError, deps.skills)
            case Some(m) => Some(InvalidDeps(m))
            case None => None
  }

  function Sorted(deps: Deps): Deps {
    deps.(connections := SortBy(SlugOf, deps.connections), skills := SortBy(SlugOf, deps.skills))
  }

  predicate AnyEntry(p: Entry -> bool, entries: seq<Entry>) { exists i :: 0 <= i < |entries| && p(entries[i]) }

  function BaseFiles(tc: Toolchain, sorted: Deps, instructions: JsString, hash: JsString): Files {
    var files: Files := map[
      Ascii("package.json") := tc.packageJson(sorted),
      Ascii("tsconfig.json") := tc.tsconfig,
      Ascii("agent/agent.ts") := tc.agentTs(sorted),
      Ascii("agent/instructions.md") := instructions,
      Ascii("agent/lib/platform-auth.ts") := tc.platformAuth(sorted.dev == Some(true), hash)];
    var files :=
      if AnyEntry(tc.needsEnv, sorted.connections) then files[Ascii("agent/lib/env.ts") := tc.envLib] else files;
    var files :=
      if AnyEntry(tc.usesOauth, sorted.connections) then files[Ascii("agent/lib/platform-token.ts") := tc.tokenLib]
      else files;
    files[Ascii("agent/channels/eve.ts") := tc.eveChannel(sorted)]
  }

  function ConnectionPath(e: Entry): JsString { Ascii("agent/connections/") + e.slug + Ascii(".ts") }

  function AddConnections(tc: Toolchain, files: Files, connections: seq<Entry>): Files
    decreases |connections|
  {
    if connections == [] then files
    else
      var files := files[ConnectionPath(connections[0]) := tc.emitConnection(connections[0])];
      AddConnections(tc, files, connections[1..])
  }

  function AddAll(files: Files, pairs: seq<(JsString, JsString)>): Files
    decreases |pairs|
  {
    if pairs == [] then files else AddAll(files[pairs[0].0 := pairs[0].1], pairs[1..])
  }

  function AddSkills(tc: Toolchain, files: Files, skills: seq<Entry>): Files
    decreases |skills|
  {
    if skills == [] then files
    else AddSkills(tc, AddAll(files, tc.emitSkill(skills[0])), skills[1..])
  }

  /** The schema returns JSON values. */
  ghost predicate SoundParse(tc: Toolchain, definition: C.Value) {
    tc.parse(definition).Some? ==> C.WellFormed(tc.parse(definition).value.json)
  }

  function AllFiles(tc: Toolchain, sorted: Deps, instructions: JsString, hash: JsString): Files {
    AddSkills(tc, AddConnections(tc, BaseFiles(tc, sorted, instructions, hash), sorted.connections), sorted.skills)
  }

  /** Everything after validation: the hash is baked into the files. */
  function Emit(tc: Toolchain, def: Definition, sorted: Deps, text: C.Result<JsString>): Outcome {
    match tc.renderInstructions(def, sorted)
    case None => Failed(UnresolvedReference)
    case Some(instructions) =>
      match text
      case Err(_) => Failed(NotCanonical)
      case Ok(t) => Compiled(AllFiles(tc, sorted, instructions, tc.sha256(t)), tc.sha256(t))
  }

  function CompileOutcome(tc: Toolchain, definition: C.Value, deps: Deps): Outcome
    requires WellFormedDeps(deps) && SoundParse(tc, definition)
  {
    match tc.parse(definition)
    case None => Failed(InvalidDefinition)
    case Some(def) =>
      match DepsError(tc, def, deps)
      case Some(e) => Failed(e)
      case None => Emit(tc, def, Sorted(deps), HashText(def.json, deps, tc.compilerVersion))
  }

  method ValidateEntries(check: Entry -> Option<JsString>, entries: seq<Entry>) returns (error: Option<JsString>)
    ensures error == FirstError(check, entries)
  {
    for i := 0 to |entries|
      invariant FirstError(check, entries) == FirstError(check, entries[i..])
    {
      var e := check(entries[i]);
      if e.Some? { return e; }
    }
    return None;
  }

  method EmitConnections(tc: Toolchain, base: Files, connections: seq<Entry>) returns (files: Files)
    ensures files == AddConnections(tc, base, connections)
  {
    files := base;
    for i := 0 to |connections|
      invariant AddConnections(tc, files, connections[i..]) == AddConnections(tc, base, connections)
    {
      files := files[ConnectionPath(connections[i]) := tc.emitConnection(connections[i])];
    }
  }

  method EmitAll(base: Files, pairs: seq<(JsString, JsString)>) returns (files: Files)
    ensures files == AddAll(base, pairs)
  {
    files := base;
    for j := 0 to |pairs|
      invariant AddAll(files, pairs[j..]) == AddAll(base, pairs)
    {
      files := files[pairs[j].0 := pairs[j].1];
    }
  }

  method EmitSkills(tc: Toolchain, base: Files, skills: seq<Entry>) returns (files: Files)
    ensures files == AddSkills(tc, base, skills)
  {
    files := base;
    for i := 0 to |skills|
      invariant AddSkills(tc, files, skills[i..]) == AddSkills(tc, base, skills)
    {
      files := EmitAll(files, tc.emitSkill(skills[i]));
    }
  }

  method CompileAgent(tc: Toolchain, definition: C.Value, deps: Deps) returns (r: Outcome)
    requires WellFormedDeps(deps) && SoundParse(tc, definition)
    ensures r == CompileOutcome(tc, definition, deps)
  {
    var parsed := tc.parse(definition);
    if parsed.None? { return Failed(InvalidDefinition); }
    var def := parsed.value;
    var header := tc.depsError(def, deps.(connections := [], skills := []));
    if header.Some? { return Failed(InvalidDeps(header.value)); }
    var join := ValidateJoin(def.connectionIds, deps.connections);
    if join.Some? { return Failed(join.value); }
    join := ValidateJoin(def.skillIds, deps.skills);
    if join.Some? { return Failed(join.value); }
    var invalid := ValidateEntries(tc.connectionError, deps.connections);
    if invalid.Some? { return Failed(InvalidDeps(invalid.value)); }
    invalid := ValidateEntries(tc.skillError, deps.skills);
    if invalid.Some? { return Failed(InvalidDeps(invalid.value)); }
    var sorted := Sorted(deps);
    var rendered := tc.renderInstructions(def, sorted);
    if rendered.None? { return Failed(UnresolvedReference); }
    var text := HashText(def.json, deps, tc.compilerVersion);
    if text.Err? { return Failed(NotCanonical); }
    var hash := tc.sha256(text.value);
    var files := EmitConnections(tc, BaseFiles(tc, sorted, rendered.value, hash), sorted.connections);
    files := EmitSkills(tc, files, sorted.skills);
    return Compiled(files, hash);
  }

  // ---- Order independence ----

  lemma {:induction false} FirstErrorNone(check: Entry -> Option<JsString>, entries: seq<Entry>)
    ensures FirstError(check, entries).None? <==> forall e <- entries :: check(e).None?
  {
    if entries != [] {
      FirstErrorNone(check, entries[1..]);
      assert entries == [entries[0]] + entries[1..];
    }
  }

  ghost predicate Permuted(a: Deps, b: Deps) {
    && b == a.(connections := b.connections, skills := b.skills)
    && multiset(a.connections) == multiset(b.connections)
    && multiset(a.skills) == multiset(b.skills)
  }

  lemma PermutedHolds(a: seq<Entry>, b: seq<Entry>)
    requires multiset(a) == multiset(b)
    ensures forall e :: e in a <==> e in b
  {
    forall e ensures e in a <==> e in b { assert e in multiset(a) <==> e in multiset(b); }
  }

  lemma JoinPermuted(ids: seq<JsString>, a: seq<Entry>, b: seq<Entry>)
    requires multiset(a) == multiset(b)
    ensures JoinError(ids, a).None? <==> JoinError(ids, b).None?
  {
    JoinAccepts(ids, a);
    JoinAccepts(ids, b);
    PermutedHolds(a, b);
    if DistinctKeys(SlugOf, a) { PermutationKeepsDistinctKeys(SlugOf, a, b); }
    if DistinctKeys(SlugOf, b) { PermutationKeepsDistinctKeys(SlugOf, b, a); }
  }

  lemma DepsErrorPermuted(tc: Toolchain, def: Definition, a: Deps, b: Deps)
    requires Permuted(a, b)
    ensures DepsError(tc, def, a).None? <==> DepsError(tc, def, b).None?
  {
    JoinPermuted(def.connectionIds, a.connections, b.connections);
    JoinPermuted(def.skillIds, a.skills, b.skills);
    FirstErrorNone(tc.connectionError, a.connections);
    FirstErrorNone(tc.connectionError, b.connections);
    FirstErrorNone(tc.skillError, a.skills);
    FirstErrorNone(tc.skillError, b.skills);
    PermutedHolds(a.connections, b.connections);
    PermutedHolds(a.skills, b.skills);
  }

  /** Validation is what makes the sort have one result. */
  lemma AcceptedSlugsDistinct(tc: Toolchain, def: Definition, deps: Deps)
    requires DepsError(tc, def, deps).None?
    ensures DistinctSlugs(deps)
  {
    JoinAccepts(def.connectionIds, deps.connections);
    JoinAccepts(def.skillIds, deps.skills);
  }

  lemma SortedPermuted(a: Deps, b: Deps)
    requires Permuted(a, b) && DistinctSlugs(a)
    ensures Sorted(a) == Sorted(b)
  {
    SortOrderIndependent(SlugOf, a.connections, b.connections);
    SortOrderIndependent(SlugOf, a.skills, b.skills);
  }

  /** Permuting the resolved connections or skills never changes whether compile
      accepts, and on acceptance gives the same files and the same hash. */
  lemma CompileOrderIndependent(tc: Toolchain, definition: C.Value, a: Deps, b: Deps)
    requires WellFormedDeps(a) && WellFormedDeps(b) && SoundParse(tc, definition) && Permuted(a, b)
    ensures CompileOutcome(tc, definition, a).Compiled? <==> CompileOutcome(tc, definition, b).Compiled?
    ensures CompileOutcome(tc, definition, a).Compiled? ==>
              CompileOutcome(tc, definition, a) == CompileOutcome(tc, definition, b)
  {
    if tc.parse(definition).Some? {
      var def := tc.parse(definition).value;
      DepsErrorPermuted(tc, def, a, b);
      OutcomeAfterParse(tc, definition, a, def);
      OutcomeAfterParse(tc, definition, b, def);
      if DepsError(tc, def, a).None? { EmitPermuted(tc, def, a, b); }
    }
  }

  lemma OutcomeAfterParse(tc: Toolchain, definition: C.Value, deps: Deps, def: Definition)
    requires WellFormedDeps(deps) && SoundParse(tc, definition) && tc.parse(definition) == Some(def)
    ensures DepsError(tc, def, deps).Some? ==> CompileOutcome(tc, definition, deps).Failed?
    ensures DepsError(tc, def, deps).None? ==>
              CompileOutcome(tc, definition, deps) ==
              Emit(tc, def, Sorted(deps), HashText(def.json, deps, tc.compilerVersion))
  {
  }

  lemma EmitPermuted(tc: Toolchain, def: Definition, a: Deps, b: Deps)
    requires WellFormedDeps(a) && WellFormedDeps(b) && C.WellFormed(def.json) && Permuted(a, b)
    requires DepsError(tc, def, a).None?
    ensures Sorted(a) == Sorted(b)
    ensures HashText(def.json, a, tc.compilerVersion) == HashText(def.json, b, tc.compilerVersion)
  {
    AcceptedSlugsDistinct(tc, def, a);
    SortedPermuted(a, b);
    HashTextOrderIndependent(def.json, a, tc.compilerVersion, b.connections, b.skills);
  }
}
