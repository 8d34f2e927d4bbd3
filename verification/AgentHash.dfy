/** The text that `computeAgentHash` hashes, and what that text determines. */
module AgentHash {
  import opened JsText
  import opened Sorting
  import opened CanonicalJson
  import opened CanonicalJsonProofs
  import N = JsonNumber

  datatype Option<+T> = None | Some(value: T)

  /** A resolved connection or skill: its id, its slug and all other fields. */
  datatype Entry = Entry(id: JsString, slug: JsString, rest: seq<Field>)

  function SlugOf(e: Entry): JsString { e.slug }

  /** The keys of an object literal of the source. */
  ghost predicate LiteralKeys(keys: seq<string>) {
    && (forall i :: 0 <= i < |keys| ==> IsAscii(keys[i]))
    && (forall i, j :: 0 <= i < j < |keys| ==> keys[i] != keys[j])
  }

  function Record(keys: seq<string>, vals: seq<Value>): (r: seq<Field>)
    requires |keys| == |vals| && LiteralKeys(keys)
    ensures |r| == |keys| && forall i :: 0 <= i < |r| ==> r[i] == Field(Ascii(keys[i]), vals[i])
  {
    if keys == [] then [] else [Field(Ascii(keys[0]), vals[0])] + Record(keys[1..], vals[1..])
  }

  lemma RecordKeysDistinct(keys: seq<string>, vals: seq<Value>)
    requires |keys| == |vals| && LiteralKeys(keys)
    ensures DistinctKeys(KeyOf, Record(keys, vals))
  {
    forall i, j | 0 <= i < j < |keys| ensures Ascii(keys[i]) != Ascii(keys[j]) {
      AsciiInjective(keys[i], keys[j]);
    }
  }

  function EntryValue(e: Entry): Value {
    Obj(Record(["id", "slug"], [Str(e.id), Str(e.slug)]) + e.rest)
  }

  datatype Deps = Deps(
    versions: Value,
    resolvedModel: Value,
    workspaceSlug: JsString,
    agentId: JsString,
    agentSlug: JsString,
    connections: seq<Entry>,
    skills: seq<Entry>,
    dev: Option<bool>,
    buildEnvEpoch: Option<N.Number>)

  function EntryValues(entries: seq<Entry>): (r: seq<Value>)
    ensures |r| == |entries| && forall i :: 0 <= i < |r| ==> r[i] == EntryValue(entries[i])
  {
    if entries == [] then [] else [EntryValue(entries[0])] + EntryValues(entries[1..])
  }

  const HASH_KEYS := ["buildEnv", "compilerVersion", "definition", "resolved", "versions"]
  const RESOLVED_KEYS := ["agentId", "agentSlug", "connections", "options", "resolvedModel", "skills", "workspaceSlug"]

  lemma KeysAreLiteral()
    ensures LiteralKeys(HASH_KEYS) && LiteralKeys(RESOLVED_KEYS) && LiteralKeys(["dev"])
    ensures |HASH_KEYS| == 5 && |RESOLVED_KEYS| == 7
  {
    HashKeysAreLiteral();
    ResolvedKeysAreLiteral();
  }

  lemma HashKeysAreLiteral()
    ensures LiteralKeys(HASH_KEYS) && |HASH_KEYS| == 5
  {}

  lemma ResolvedKeysAreLiteral()
    ensures LiteralKeys(RESOLVED_KEYS) && |RESOLVED_KEYS| == 7
  {
    ResolvedKeysAreAscii();
    ResolvedKeysDiffer();
  }

  lemma ResolvedKeysAreAscii()
    ensures forall i :: 0 <= i < |RESOLVED_KEYS| ==> IsAscii(RESOLVED_KEYS[i])
  {}

  lemma ResolvedKeysDiffer()
    ensures forall i, j :: 0 <= i < j < |RESOLVED_KEYS| ==> RESOLVED_KEYS[i] != RESOLVED_KEYS[j]
  {
    assert RESOLVED_KEYS[0][0] == 'a' && RESOLVED_KEYS[3][0] == 'o';
    assert RESOLVED_KEYS[4][0] == 'r' && RESOLVED_KEYS[6][0] == 'w';
  }

  function OptionsValue(deps: Deps): Value {
    KeysAreLiteral();
    Obj(Record(["dev"], [Bool(deps.dev == Some(true))]))
  }

  function ResolvedValues(deps: Deps): (r: seq<Value>)
    ensures |r| == 7
  {
    [ Str(deps.agentId),
      Str(deps.agentSlug),
      Arr(EntryValues(SortBy(SlugOf, deps.connections))),
      OptionsValue(deps),
      deps.resolvedModel,
      Arr(EntryValues(SortBy(SlugOf, deps.skills))),
      Str(deps.workspaceSlug) ]
  }

  function ResolvedFields(deps: Deps): seq<Field> {
    KeysAreLiteral();
    Record(RESOLVED_KEYS, ResolvedValues(deps))
  }

  function EpochValue(deps: Deps): Value {
    if deps.buildEnvEpoch.None? then Undefined else Num(deps.buildEnvEpoch.value)
  }

  function HashValues(definition: Value, deps: Deps, compilerVersion: JsString): (r: seq<Value>)
    ensures |r| == 5
  {
    [EpochValue(deps), Str(compilerVersion), definition, Obj(ResolvedFields(deps)), deps.versions]
  }

  function HashFields(definition: Value, deps: Deps, compilerVersion: JsString): seq<Field> {
    KeysAreLiteral();
    Record(HASH_KEYS, HashValues(definition, deps, compilerVersion))
  }

  function HashInput(definition: Value, deps: Deps, compilerVersion: JsString): Value {
    Obj(HashFields(definition, deps, compilerVersion))
  }

  /** Inputs are JavaScript values: records have each key once. */
  ghost predicate WellFormedDeps(deps: Deps) {
    && WellFormed(deps.versions) && deps.versions.Obj?
    && WellFormed(deps.resolvedModel) && deps.resolvedModel.Obj?
    && (forall e <- deps.connections :: WellFormed(EntryValue(e)))
    && (forall e <- deps.skills :: WellFormed(EntryValue(e)))
    && (deps.buildEnvEpoch.Some? ==> N.WellFormed(deps.buildEnvEpoch.value))
  }

  ghost predicate DistinctSlugs(deps: Deps) {
    DistinctKeys(SlugOf, deps.connections) && DistinctKeys(SlugOf, deps.skills)
  }

  lemma RecordWellFormed(keys: seq<string>, vals: seq<Value>)
    requires |keys| == |vals| && LiteralKeys(keys) && forall i :: 0 <= i < |vals| ==> WellFormed(vals[i])
    ensures WellFormed(Obj(Record(keys, vals)))
  {
    RecordKeysDistinct(keys, vals);
  }

  lemma ResolvedWellFormed(deps: Deps)
    requires WellFormedDeps(deps)
    ensures WellFormed(Obj(ResolvedFields(deps)))
  {
    KeysAreLiteral();
    ResolvedValuesWellFormed(deps);
    RecordWellFormed(RESOLVED_KEYS, ResolvedValues(deps));
  }

  lemma ResolvedValuesWellFormed(deps: Deps)
    requires WellFormedDeps(deps)
    ensures forall i :: 0 <= i < |ResolvedValues(deps)| ==> WellFormed(ResolvedValues(deps)[i])
  {
    EntriesWellFormed(deps.connections);
    EntriesWellFormed(deps.skills);
    OptionsWellFormed(deps);
    SevenWellFormed(ResolvedValues(deps));
  }

  lemma SevenWellFormed(v: seq<Value>)
    requires |v| == 7 && WellFormed(v[0]) && WellFormed(v[1]) && WellFormed(v[2]) && WellFormed(v[3])
    requires WellFormed(v[4]) && WellFormed(v[5]) && WellFormed(v[6])
    ensures forall i :: 0 <= i < |v| ==> WellFormed(v[i])
  {}

  lemma OptionsWellFormed(deps: Deps)
    ensures WellFormed(OptionsValue(deps))
  {
    KeysAreLiteral();
    RecordWellFormed(["dev"], [Bool(deps.dev == Some(true))]);
  }

  lemma HashInputWellFormed(definition: Value, deps: Deps, compilerVersion: JsString)
    requires WellFormed(definition) && WellFormedDeps(deps)
    ensures WellFormed(HashInput(definition, deps, compilerVersion))
  {
    KeysAreLiteral();
    ResolvedWellFormed(deps);
    RecordWellFormed(HASH_KEYS, HashValues(definition, deps, compilerVersion));
  }

  lemma EntriesWellFormed(entries: seq<Entry>)
    requires forall e <- entries :: WellFormed(EntryValue(e))
    ensures WellFormed(Arr(EntryValues(SortBy(SlugOf, entries))))
  {
    SortHolds(SlugOf, entries);
    var s := SortBy(SlugOf, entries);
    forall i | 0 <= i < |s| ensures WellFormed(EntryValues(s)[i]) {
      assert s[i] in s;
    }
  }

  /** The canonical text; `computeAgentHash` is its SHA-256. */
  function HashText(definition: Value, deps: Deps, compilerVersion: JsString): Result<JsString>
    requires WellFormed(definition) && WellFormedDeps(deps)
  {
    HashInputWellFormed(definition, deps, compilerVersion);
    CanonicalText(HashInput(definition, deps, compilerVersion))
  }

  // ---- What the text determines ----

  /** Records with the same distinct keys in the same order are equivalent
      exactly when their values are, field by field. */
  lemma RecordsAgree(a: seq<Field>, b: seq<Field>)
    requires |a| == |b| && DistinctKeys(KeyOf, a) && forall i :: 0 <= i < |a| ==> a[i].key == b[i].key
    ensures Equivalent(Obj(a), Obj(b)) <==> forall i :: 0 <= i < |a| ==> FieldAgrees(a[i], b[i])
  {
    forall i, j | 0 <= i < |a| && 0 <= j < |b| && EquivalentFields(a[i], b[j]) ensures i == j {
      assert KeyOf(a[j]) == KeyOf(a[i]);
    }
    if EquivalentObjects(a, b) {
      forall i | 0 <= i < |a| ensures FieldAgrees(a[i], b[i]) {
      }
    }
    if forall i :: 0 <= i < |a| ==> FieldAgrees(a[i], b[i]) {
      forall i | 0 <= i < |a| && !a[i].val.Undefined? ensures exists j :: 0 <= j < |b| && EquivalentFields(a[i], b[j]) {
        assert EquivalentFields(a[i], b[i]);
      }
      forall j | 0 <= j < |b| && !b[j].val.Undefined? ensures exists i :: 0 <= i < |a| && EquivalentFields(a[i], b[j]) {
        assert EquivalentFields(a[j], b[j]);
      }
    }
  }

  ghost predicate FieldAgrees(f: Field, g: Field) {
    (f.val.Undefined? && g.val.Undefined?) || EquivalentFields(f, g)
  }

  /** The same resolved entries, up to list order and key order. */
  ghost predicate SameEntries(a: seq<Entry>, b: seq<Entry>) {
    Related(SameEntry, a, b)
  }

  ghost predicate SameEntry(e: Entry, f: Entry) {
    Equivalent(EntryValue(e), EntryValue(f))
  }

  /** The same inputs, up to what canonicalization ignores. */
  ghost predicate SameInputs(d: Value, deps: Deps, cv: JsString, d': Value, deps': Deps, cv': JsString) {
    && cv == cv'
    && ValueAgrees(EpochValue(deps), EpochValue(deps'))
    && ValueAgrees(d, d')
    && ValueAgrees(deps.versions, deps'.versions)
    && SameResolved(deps, deps')
  }

  lemma EntryFields(e: Entry)
    ensures var a := EntryValue(e).fields;
      |a| >= 2 && a[0] == Field(Ascii("id"), Str(e.id)) && a[1] == Field(Ascii("slug"), Str(e.slug))
  {
  }

  /** A field with a given key has one possible partner. */
  lemma FieldPartner(a: seq<Field>, b: seq<Field>, i: int)
    requires DistinctKeys(KeyOf, b) && EquivalentObjects(a, b)
    requires 0 <= i < |a| && i < |b| && a[i].key == b[i].key && !a[i].val.Undefined?
    ensures EquivalentFields(a[i], b[i])
  {
    var j :| 0 <= j < |b| && EquivalentFields(a[i], b[j]);
    assert KeyOf(b[i]) == KeyOf(b[j]);
  }

  lemma EquivalentEntriesShareSlug(e: Entry, f: Entry)
    requires WellFormed(EntryValue(f)) && SameEntry(e, f)
    ensures e.slug == f.slug && e.id == f.id
  {
    EntryFields(e);
    EntryFields(f);
    FieldPartner(EntryValue(e).fields, EntryValue(f).fields, 0);
    FieldPartner(EntryValue(e).fields, EntryValue(f).fields, 1);
  }

  lemma RecordValuesAgree(keys: seq<string>, v: seq<Value>, w: seq<Value>)
    requires |keys| == |v| == |w| && LiteralKeys(keys)
    ensures Equivalent(Obj(Record(keys, v)), Obj(Record(keys, w))) <==>
            AllAgree(v, w)
  {
    RecordKeysDistinct(keys, v);
    RecordsAgree(Record(keys, v), Record(keys, w));
    forall i | 0 <= i < |keys|
      ensures FieldAgrees(Record(keys, v)[i], Record(keys, w)[i]) <==> ValueAgrees(v[i], w[i])
    {
    }
  }

  ghost predicate AllAgree(v: seq<Value>, w: seq<Value>) {
    |v| == |w| && forall i :: 0 <= i < |v| ==> ValueAgrees(v[i], w[i])
  }

  ghost predicate ValueAgrees(v: Value, w: Value) {
    (v.Undefined? && w.Undefined?) || (!v.Undefined? && !w.Undefined? && Equivalent(v, w))
  }

  /** What equivalence of two lists of entries says, item by item. */
  lemma EntryListsEquivalent(v: seq<Value>, w: seq<Value>)
    requires (forall i :: 0 <= i < |v| ==> v[i].Obj?) && (forall i :: 0 <= i < |w| ==> w[i].Obj?)
    ensures Equivalent(Arr(v), Arr(w)) <==> |v| == |w| && forall i :: 0 <= i < |v| ==> Equivalent(v[i], w[i])
  {}

  lemma ValuesPointwise(p: seq<Entry>, q: seq<Entry>)
    ensures Equivalent(Arr(EntryValues(p)), Arr(EntryValues(q))) <==> Pointwise(SameEntry, p, q)
  {
    var v, w := EntryValues(p), EntryValues(q);
    EntryListsEquivalent(v, w);
    if |p| == |q| {
      forall i | 0 <= i < |p| ensures Equivalent(v[i], w[i]) <==> SameEntry(p[i], q[i]) {}
    }
  }

  /** The sorted lists agree item by item exactly when they hold the same entries. */
  lemma SortedEntriesAgree(a: seq<Entry>, b: seq<Entry>)
    requires forall e <- b :: WellFormed(EntryValue(e))
    requires DistinctKeys(SlugOf, a) && DistinctKeys(SlugOf, b)
    ensures Equivalent(Arr(EntryValues(SortBy(SlugOf, a))), Arr(EntryValues(SortBy(SlugOf, b)))) <==> SameEntries(a, b)
  {
    forall x, y | x in a && y in b && SameEntry(x, y) ensures SlugOf(x) == SlugOf(y) {
      EquivalentEntriesShareSlug(x, y);
    }
    SortedRelated(SlugOf, SameEntry, a, b);
    ValuesPointwise(SortBy(SlugOf, a), SortBy(SlugOf, b));
  }

  lemma StrAgrees(a: JsString, b: JsString)
    ensures ValueAgrees(Str(a), Str(b)) <==> a == b
  {
  }

  lemma SevenValues(v: seq<Value>, w: seq<Value>)
    requires |v| == |w| == 7
    ensures AllAgree(v, w) <==>
            && ValueAgrees(v[0], w[0]) && ValueAgrees(v[1], w[1]) && ValueAgrees(v[2], w[2]) && ValueAgrees(v[3], w[3])
            && ValueAgrees(v[4], w[4]) && ValueAgrees(v[5], w[5]) && ValueAgrees(v[6], w[6])
  {}

  lemma FiveAgree(keys: seq<string>, v: seq<Value>, w: seq<Value>)
    requires |keys| == |v| == |w| == 5 && LiteralKeys(keys)
    ensures Equivalent(Obj(Record(keys, v)), Obj(Record(keys, w))) <==>
            && ValueAgrees(v[0], w[0]) && ValueAgrees(v[1], w[1]) && ValueAgrees(v[2], w[2])
            && ValueAgrees(v[3], w[3]) && ValueAgrees(v[4], w[4])
  {
    RecordValuesAgree(keys, v, w);
    FiveValues(v, w);
  }

  lemma FiveValues(v: seq<Value>, w: seq<Value>)
    requires |v| == |w| == 5
    ensures AllAgree(v, w) <==>
            && ValueAgrees(v[0], w[0]) && ValueAgrees(v[1], w[1]) && ValueAgrees(v[2], w[2])
            && ValueAgrees(v[3], w[3]) && ValueAgrees(v[4], w[4])
  {}

  lemma OptionsAgree(deps: Deps, deps': Deps)
    ensures ValueAgrees(OptionsValue(deps), OptionsValue(deps')) <==>
            (deps.dev == Some(true) <==> deps'.dev == Some(true))
  {
    KeysAreLiteral();
    RecordValuesAgree(["dev"], [Bool(deps.dev == Some(true))], [Bool(deps'.dev == Some(true))]);
  }

  lemma EntriesAgree(a: seq<Entry>, b: seq<Entry>)
    requires forall e <- b :: WellFormed(EntryValue(e))
    requires DistinctKeys(SlugOf, a) && DistinctKeys(SlugOf, b)
    ensures ValueAgrees(Arr(EntryValues(SortBy(SlugOf, a))), Arr(EntryValues(SortBy(SlugOf, b)))) <==> SameEntries(a, b)
  {
    SortedEntriesAgree(a, b);
  }

  /** The same identity, model and options. */
  ghost predicate SameScalars(deps: Deps, deps': Deps) {
    && deps.agentId == deps'.agentId
    && deps.agentSlug == deps'.agentSlug
    && deps.workspaceSlug == deps'.workspaceSlug
    && (deps.dev == Some(true) <==> deps'.dev == Some(true))
    && ValueAgrees(deps.resolvedModel, deps'.resolvedModel)
  }

  /** The sorted entry lists agree item by item. */
  ghost predicate SameSortedLists(deps: Deps, deps': Deps) {
    && SameSorted(deps.connections, deps'.connections)
    && SameSorted(deps.skills, deps'.skills)
  }

  ghost predicate SameSorted(a: seq<Entry>, b: seq<Entry>) {
    ValueAgrees(Arr(EntryValues(SortBy(SlugOf, a))), Arr(EntryValues(SortBy(SlugOf, b))))
  }

  ghost predicate SameResolved(deps: Deps, deps': Deps) {
    && SameScalars(deps, deps')
    && SameEntries(deps.connections, deps'.connections)
    && SameEntries(deps.skills, deps'.skills)
  }

  lemma ScalarsAgree(deps: Deps, deps': Deps)
    ensures SameScalars(deps, deps') <==>
            && ValueAgrees(Str(deps.agentId), Str(deps'.agentId))
            && ValueAgrees(Str(deps.agentSlug), Str(deps'.agentSlug))
            && ValueAgrees(OptionsValue(deps), OptionsValue(deps'))
            && ValueAgrees(deps.resolvedModel, deps'.resolvedModel)
            && ValueAgrees(Str(deps.workspaceSlug), Str(deps'.workspaceSlug))
  {
    StrAgrees(deps.agentId, deps'.agentId);
    StrAgrees(deps.agentSlug, deps'.agentSlug);
    StrAgrees(deps.workspaceSlug, deps'.workspaceSlug);
    OptionsAgree(deps, deps');
  }

  lemma ResolvedValuesAgree(deps: Deps, deps': Deps, v: seq<Value>, w: seq<Value>)
    requires v == ResolvedValues(deps) && w == ResolvedValues(deps')
    ensures AllAgree(v, w) <==> SameScalars(deps, deps') && SameSortedLists(deps, deps')
  {
    SevenValues(v, w);
    ScalarsAgree(deps, deps');
    SortedListsAgree(deps, deps');
  }

  lemma SortedListsAgree(deps: Deps, deps': Deps)
    ensures var v, w := ResolvedValues(deps), ResolvedValues(deps');
            SameSortedLists(deps, deps') <==> ValueAgrees(v[2], w[2]) && ValueAgrees(v[5], w[5])
  {}

  lemma ObjectsAgree(a: seq<Field>, b: seq<Field>)
    ensures ValueAgrees(Obj(a), Obj(b)) <==> Equivalent(Obj(a), Obj(b))
  {}

  /** Whatever the slugs, the resolved record determines identity, model, options and sorted lists. */
  lemma ResolvedSplits(deps: Deps, deps': Deps)
    ensures ValueAgrees(Obj(ResolvedFields(deps)), Obj(ResolvedFields(deps'))) <==>
            SameScalars(deps, deps') && SameSortedLists(deps, deps')
  {
    ResolvedKeysAreLiteral();
    ObjectsAgree(ResolvedFields(deps), ResolvedFields(deps'));
    RecordValuesAgree(RESOLVED_KEYS, ResolvedValues(deps), ResolvedValues(deps'));
    ResolvedValuesAgree(deps, deps', ResolvedValues(deps), ResolvedValues(deps'));
  }

  lemma ResolvedAgree(deps: Deps, deps': Deps)
    requires WellFormedDeps(deps') && DistinctSlugs(deps) && DistinctSlugs(deps')
    ensures SameScalars(deps, deps') && SameSortedLists(deps, deps') <==> SameResolved(deps, deps')
  {
    EntriesAgree(deps.connections, deps'.connections);
    EntriesAgree(deps.skills, deps'.skills);
  }

  /** The same inputs but for how the entry lists relate. */
  ghost predicate SameFrame(d: Value, deps: Deps, cv: JsString, d': Value, deps': Deps, cv': JsString) {
    && cv == cv'
    && ValueAgrees(EpochValue(deps), EpochValue(deps'))
    && ValueAgrees(d, d')
    && ValueAgrees(deps.versions, deps'.versions)
    && SameScalars(deps, deps')
  }

  lemma InputsSplit(d: Value, deps: Deps, cv: JsString, d': Value, deps': Deps, cv': JsString)
    ensures Equivalent(HashInput(d, deps, cv), HashInput(d', deps', cv')) <==>
            SameFrame(d, deps, cv, d', deps', cv') && SameSortedLists(deps, deps')
  {
    KeysAreLiteral();
    FiveAgree(HASH_KEYS, HashValues(d, deps, cv), HashValues(d', deps', cv'));
    StrAgrees(cv, cv');
    ResolvedSplits(deps, deps');
  }

  /** For any inputs the hashed text determines agent id, slugs, model, versions, epoch, compiler
      version, options and definition, and the entry lists in sorted order. */
  lemma HashTextDeterminesFrame(d: Value, deps: Deps, cv: JsString, d': Value, deps': Deps, cv': JsString)
    requires WellFormed(d) && WellFormedDeps(deps) && WellFormed(d') && WellFormedDeps(deps')
    requires HashText(d, deps, cv).Ok? && HashText(d', deps', cv').Ok?
    ensures HashText(d, deps, cv) == HashText(d', deps', cv') <==>
            SameFrame(d, deps, cv, d', deps', cv') && SameSortedLists(deps, deps')
  {
    HashInputWellFormed(d, deps, cv);
    HashInputWellFormed(d', deps', cv');
    CanonicalTextInjective(HashInput(d, deps, cv), HashInput(d', deps', cv'));
    InputsSplit(d, deps, cv, d', deps', cv');
  }

  /** The hashed text determines its inputs: two accepted compile inputs with
      distinct slugs give one text if and only if they agree in agent id, slugs,
      model, versions, compiler version, definition and resolved entries. */
  lemma HashTextDeterminesInputs(d: Value, deps: Deps, cv: JsString, d': Value, deps': Deps, cv': JsString)
    requires WellFormed(d) && WellFormedDeps(deps) && DistinctSlugs(deps)
    requires WellFormed(d') && WellFormedDeps(deps') && DistinctSlugs(deps')
    requires HashText(d, deps, cv).Ok? && HashText(d', deps', cv').Ok?
    ensures HashText(d, deps, cv) == HashText(d', deps', cv') <==> SameInputs(d, deps, cv, d', deps', cv')
  {
    HashTextDeterminesFrame(d, deps, cv, d', deps', cv');
    ResolvedAgree(deps, deps');
  }

  /** Two agents with different ids never share a text. */
  lemma DistinctAgentsNeverCollide(d: Value, deps: Deps, cv: JsString, d': Value, deps': Deps, cv': JsString)
    requires WellFormed(d) && WellFormedDeps(deps) && WellFormed(d') && WellFormedDeps(deps')
    requires HashText(d, deps, cv).Ok? && HashText(d', deps', cv').Ok?
    requires deps.agentId != deps'.agentId
    ensures HashText(d, deps, cv) != HashText(d', deps', cv')
  {
    HashTextDeterminesFrame(d, deps, cv, d', deps', cv');
  }

  /** Permuting the resolved entries changes nothing in the text. */
  lemma HashTextOrderIndependent(d: Value, deps: Deps, cv: JsString, connections: seq<Entry>, skills: seq<Entry>)
    requires WellFormed(d) && WellFormedDeps(deps) && DistinctSlugs(deps)
    requires multiset(connections) == multiset(deps.connections) && multiset(skills) == multiset(deps.skills)
    ensures WellFormedDeps(deps.(connections := connections, skills := skills))
    ensures HashText(d, deps.(connections := connections, skills := skills), cv) == HashText(d, deps, cv)
  {
    var deps' := deps.(connections := connections, skills := skills);
    PermutedWellFormed(deps, deps');
    ResolvedOrderIndependent(deps, deps');
    assert HashInput(d, deps', cv) == HashInput(d, deps, cv);
  }

  lemma PermutedWellFormed(deps: Deps, deps': Deps)
    requires WellFormedDeps(deps) && deps' == deps.(connections := deps'.connections, skills := deps'.skills)
    requires multiset(deps'.connections) == multiset(deps.connections)
    requires multiset(deps'.skills) == multiset(deps.skills)
    ensures WellFormedDeps(deps')
  {
    forall e | e in deps'.connections ensures e in deps.connections { assert e in multiset(deps'.connections); }
    forall e | e in deps'.skills ensures e in deps.skills { assert e in multiset(deps'.skills); }
  }

  lemma ResolvedOrderIndependent(deps: Deps, deps': Deps)
    requires DistinctSlugs(deps) && deps' == deps.(connections := deps'.connections, skills := deps'.skills)
    requires multiset(deps'.connections) == multiset(deps.connections)
    requires multiset(deps'.skills) == multiset(deps.skills)
    ensures ResolvedFields(deps') == ResolvedFields(deps)
  {
    SortOrderIndependent(SlugOf, deps.connections, deps'.connections);
    SortOrderIndependent(SlugOf, deps.skills, deps'.skills);
  }
}
