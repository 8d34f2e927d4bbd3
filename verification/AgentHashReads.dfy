/** What the hashed text of an agent says when it is read as JSON. */
module AgentHashReads {
  import opened JsText
  import opened Sorting
  import opened CanonicalJson
  import opened AgentHash
  import Reader = JsonReader
  import opened JsonReaderProofs

  /** The value that `computeAgentHash` prints, with the entry lists given. */
  function Hashed(d: Value, deps: Deps, cv: JsString, connections: seq<Entry>, skills: seq<Entry>): Value {
    Obj([
      Field(Ascii("buildEnv"), if deps.buildEnvEpoch.Some? then Num(deps.buildEnvEpoch.value) else Undefined),
      Field(Ascii("compilerVersion"), Str(cv)),
      Field(Ascii("definition"), d),
      Field(Ascii("resolved"), Obj(Resolved(deps, connections, skills))),
      Field(Ascii("versions"), deps.versions)])
  }

  function Resolved(deps: Deps, connections: seq<Entry>, skills: seq<Entry>): seq<Field> {
    [ Field(Ascii("agentId"), Str(deps.agentId)),
      Field(Ascii("agentSlug"), Str(deps.agentSlug)),
      Field(Ascii("connections"), Arr(EntryValues(connections))),
      Field(Ascii("options"), Obj([Field(Ascii("dev"), Bool(deps.dev == Some(true)))])),
      Field(Ascii("resolvedModel"), deps.resolvedModel),
      Field(Ascii("skills"), Arr(EntryValues(skills))),
      Field(Ascii("workspaceSlug"), Str(deps.workspaceSlug)) ]
  }

  lemma OptionsAre(deps: Deps)
    ensures OptionsValue(deps) == Obj([Field(Ascii("dev"), Bool(deps.dev == Some(true)))])
  {
    KeysAreLiteral();
    assert Record(["dev"], [Bool(deps.dev == Some(true))]) == [Field(Ascii("dev"), Bool(deps.dev == Some(true)))];
  }

  lemma ResolvedIs(deps: Deps)
    ensures ResolvedFields(deps) == Resolved(deps, SortBy(SlugOf, deps.connections), SortBy(SlugOf, deps.skills))
  {
    OptionsAre(deps);
  }

  lemma HashInputIs(d: Value, deps: Deps, cv: JsString)
    ensures HashInput(d, deps, cv) == Hashed(d, deps, cv, SortBy(SlugOf, deps.connections), SortBy(SlugOf, deps.skills))
  {
    ResolvedIs(deps);
    var h := HashFields(d, deps, cv);
    var g := Hashed(d, deps, cv, SortBy(SlugOf, deps.connections), SortBy(SlugOf, deps.skills)).fields;
    assert h[0] == g[0] && h[1] == g[1] && h[2] == g[2] && h[3] == g[3] && h[4] == g[4];
    assert h == g;
  }

  /**
   * Read as JSON the hashed text is the compile input under the names of the source, with the connections
   * and the skills in code-unit order of their slugs and the keys of every object in code-unit order.
   */
  lemma HashTextReads(d: Value, deps: Deps, cv: JsString)
    returns (w: Value, connections: seq<Entry>, skills: seq<Entry>)
    requires WellFormed(d) && WellFormedDeps(deps) && DistinctSlugs(deps) && HashText(d, deps, cv).Ok?
    ensures Reader.ReadText(HashText(d, deps, cv).value) == Reader.Some(w)
    ensures Equivalent(Hashed(d, deps, cv, connections, skills), w) && KeysInOrder(w)
    ensures multiset(connections) == multiset(deps.connections) && InCodeUnitOrder(SlugOf, connections)
    ensures multiset(skills) == multiset(deps.skills) && InCodeUnitOrder(SlugOf, skills)
  {
    connections, skills := SortBy(SlugOf, deps.connections), SortBy(SlugOf, deps.skills);
    SortIsCodeUnitOrder(SlugOf, deps.connections);
    SortIsCodeUnitOrder(SlugOf, deps.skills);
    HashInputWellFormed(d, deps, cv);
    HashInputIs(d, deps, cv);
    w := CanonicalTextReads(HashInput(d, deps, cv));
  }
}
