/** Which error compile reports: the first one in the order of its checks, and of the entries within a check. */
module CompileRefusals {
  import opened JsText
  import opened Sorting
  import opened AgentHash
  import opened Compile
  import C = CanonicalJson

  /** Some entry has the id. */
  ghost predicate Resolves(entries: seq<Entry>, id: JsString) {
    exists e <- entries :: e.id == id
  }

  lemma ResolvesIsHasId(entries: seq<Entry>, id: JsString)
    ensures HasId(entries, id) <==> Resolves(entries, id)
  {
    if e :| e in entries && e.id == id {
      var i :| 0 <= i < |entries| && entries[i] == e;
    }
  }

  lemma {:induction false} MissingIsFirst(ids: seq<JsString>, resolved: seq<Entry>) returns (i: nat)
    requires FirstMissing(ids, resolved).Some?
    ensures i < |ids| && FirstMissing(ids, resolved) == Some(MissingEntry(ids[i])) && !Resolves(resolved, ids[i])
    ensures forall k :: 0 <= k < i ==> Resolves(resolved, ids[k])
  {
    ResolvesIsHasId(resolved, ids[0]);
    i := 0;
    if HasId(resolved, ids[0]) {
      var j := MissingIsFirst(ids[1..], resolved);
      i := j + 1;
      assert forall k :: 0 < k < i ==> ids[k] == ids[1..][k - 1];
    }
  }

  lemma {:induction false} UnexpectedIsFirst(ids: seq<JsString>, resolved: seq<Entry>) returns (i: nat)
    requires FirstUnexpected(ids, resolved).Some?
    ensures i < |resolved| && FirstUnexpected(ids, resolved) == Some(UnexpectedEntry(resolved[i].id))
    ensures resolved[i].id !in ids && forall k :: 0 <= k < i ==> resolved[k].id in ids
  {
    i := 0;
    if resolved[0].id in ids {
      var j := UnexpectedIsFirst(ids, resolved[1..]);
      i := j + 1;
      assert forall k :: 0 < k < i ==> resolved[k] == resolved[1..][k - 1];
    }
  }

  /** The slugs of the first `n` entries are well-formed, new and distinct. */
  ghost predicate SlugsFine(resolved: seq<Entry>, n: nat, seen: set<JsString>) {
    && n <= |resolved|
    && (forall k :: 0 <= k < n ==> IsSlug(resolved[k].slug) && resolved[k].slug !in seen)
    && (forall k, l :: 0 <= k < l < n ==> resolved[k].slug != resolved[l].slug)
  }

  /** The slug of the i-th entry is malformed, or well-formed and used before. */
  ghost predicate SlugRefused(resolved: seq<Entry>, i: nat, seen: set<JsString>, error: Option<Error>) {
    && i < |resolved|
    && var slug := resolved[i].slug;
    if IsSlug(slug) then
      && error == Some(DuplicateSlug(slug))
      && (slug in seen || exists k :: 0 <= k < i && resolved[k].slug == slug)
    else error == Some(InvalidSlug(slug))
  }

  lemma {:induction false} SlugIsFirst(resolved: seq<Entry>, seen: set<JsString>) returns (i: nat)
    requires SlugError(resolved, seen).Some?
    ensures SlugsFine(resolved, i, seen) && SlugRefused(resolved, i, seen, SlugError(resolved, seen))
  {
    i := 0;
    var e, tail := resolved[0], resolved[1..];
    if IsSlug(e.slug) && e.slug !in seen {
      var j := SlugIsFirst(tail, seen + {e.slug});
      i := j + 1;
      assert forall k :: 0 < k < |resolved| ==> resolved[k] == tail[k - 1];
    }
  }

  /** What the join check reports, if anything: an unresolved id, else an unreferenced entry, else a slug. */
  ghost predicate JoinReport(ids: seq<JsString>, resolved: seq<Entry>, i: nat, error: Error) {
    if exists id <- ids :: !Resolves(resolved, id) then
      && i < |ids| && error == MissingEntry(ids[i]) && !Resolves(resolved, ids[i])
      && forall k :: 0 <= k < i ==> Resolves(resolved, ids[k])
    else if exists e <- resolved :: e.id !in ids then
      && i < |resolved| && error == UnexpectedEntry(resolved[i].id) && resolved[i].id !in ids
      && forall k :: 0 <= k < i ==> resolved[k].id in ids
    else
      SlugsFine(resolved, i, {}) && SlugRefused(resolved, i, {}, Some(error))
  }

  lemma JoinReportsFirst(ids: seq<JsString>, resolved: seq<Entry>) returns (i: nat)
    requires JoinError(ids, resolved).Some?
    ensures JoinReport(ids, resolved, i, JoinError(ids, resolved).value)
  {
    FirstMissingNone(ids, resolved);
    FirstUnexpectedNone(ids, resolved);
    forall id <- ids ensures HasId(resolved, id) <==> Resolves(resolved, id) { ResolvesIsHasId(resolved, id); }
    if FirstMissing(ids, resolved).Some? {
      i := MissingIsFirst(ids, resolved);
      assert ids[i] in ids;
    } else if FirstUnexpected(ids, resolved).Some? {
      i := UnexpectedIsFirst(ids, resolved);
      assert resolved[i] in resolved;
    } else {
      i := SlugIsFirst(resolved, {});
    }
  }

  lemma {:induction false} CheckReportsFirst(check: Entry -> Option<JsString>, entries: seq<Entry>) returns (i: nat)
    requires FirstError(check, entries).Some?
    ensures i < |entries| && FirstError(check, entries) == check(entries[i]) && check(entries[i]).Some?
    ensures forall k :: 0 <= k < i ==> check(entries[k]).None?
  {
    i := 0;
    if check(entries[0]).None? {
      var j := CheckReportsFirst(check, entries[1..]);
      i := j + 1;
      assert forall k :: 0 < k < i ==> entries[k] == entries[1..][k - 1];
    }
  }

  /** The checks of a parsed definition before instructions and hash, in their order. */
  ghost predicate DepsReport(tc: Toolchain, def: Definition, deps: Deps, i: nat, error: Error) {
    var header := tc.depsError(def, deps.(connections := [], skills := []));
    if header.Some? then error == InvalidDeps(header.value)
    else if !Joins(def.connectionIds, deps.connections) then JoinReport(def.connectionIds, deps.connections, i, error)
    else if !Joins(def.skillIds, deps.skills) then JoinReport(def.skillIds, deps.skills, i, error)
    else if exists e <- deps.connections :: tc.connectionError(e).Some? then
      CheckReport(tc.connectionError, deps.connections, i, error)
    else
      CheckReport(tc.skillError, deps.skills, i, error)
  }

  ghost predicate CheckReport(check: Entry -> Option<JsString>, entries: seq<Entry>, i: nat, error: Error) {
    && i < |entries| && check(entries[i]).Some? && error == InvalidDeps(check(entries[i]).value)
    && forall k :: 0 <= k < i ==> check(entries[k]).None?
  }

  lemma DepsReportsFirst(tc: Toolchain, def: Definition, deps: Deps) returns (i: nat)
    requires DepsError(tc, def, deps).Some?
    ensures DepsReport(tc, def, deps, i, DepsError(tc, def, deps).value)
  {
    i := 0;
    JoinAccepts(def.connectionIds, deps.connections);
    JoinAccepts(def.skillIds, deps.skills);
    FirstErrorNone(tc.connectionError, deps.connections);
    if tc.depsError(def, deps.(connections := [], skills := [])).None? {
      if JoinError(def.connectionIds, deps.connections).Some? {
        i := JoinReportsFirst(def.connectionIds, deps.connections);
      } else if JoinError(def.skillIds, deps.skills).Some? {
        i := JoinReportsFirst(def.skillIds, deps.skills);
      } else if FirstError(tc.connectionError, deps.connections).Some? {
        i := CheckReportsFirst(tc.connectionError, deps.connections);
      } else {
        i := CheckReportsFirst(tc.skillError, deps.skills);
      }
    }
  }

  /**
   * What a refused input is refused for: its definition, else the first failing check of its entries,
   * else a reference that does not resolve, else a value without a canonical text.
   */
  lemma RefusedForFirst(tc: Toolchain, definition: C.Value, deps: Deps) returns (i: nat)
    requires WellFormedDeps(deps) && SoundParse(tc, definition) && CompileOutcome(tc, definition, deps).Failed?
    ensures var error := CompileOutcome(tc, definition, deps).error;
            if tc.parse(definition).None? then error == InvalidDefinition
            else
              var def := tc.parse(definition).value;
              if DepsError(tc, def, deps).Some? then DepsReport(tc, def, deps, i, error)
              else if tc.renderInstructions(def, Sorted(deps)).None? then error == UnresolvedReference
              else error == NotCanonical && HashText(def.json, deps, tc.compilerVersion).Err?
  {
    i := 0;
    if tc.parse(definition).Some? {
      var def := tc.parse(definition).value;
      if DepsError(tc, def, deps).Some? {
        i := DepsReportsFirst(tc, def, deps);
      }
    }
  }
}
