/** Rewriting the `@references` of a text from its end, for personas and for task messages. */
module SpanRewrite {

  datatype Kind = Trigger(path: string) | Skill(slug: string) | Connection(name: string) | PipelineScope

  /** A reference found in a text, at `[start, end)`. */
  datatype Ref = Ref(start: nat, end: nat, kind: Kind)

  datatype Option<T> = None | Some(value: T)

  /** What the reference parser delivers: spans in bounds, in order and apart. */
  ghost predicate Spans(text: string, refs: seq<Ref>) {
    && (forall i :: 0 <= i < |refs| ==> refs[i].start <= refs[i].end <= |text|)
    && (forall i, j :: 0 <= i < j < |refs| ==> refs[i].end <= refs[j].start)
  }

  /** The text read once from the left: each gap as it is, each span replaced or, if skipped, as it is. */
  ghost function Interleaved(text: string, refs: seq<Ref>, w: Writer, from: nat): string
    requires Spans(text, refs) && from <= |text|
    requires refs != [] ==> from <= refs[0].start
  {
    if refs == [] then text[from..]
    else
      text[from..refs[0].start] + Piece(text, refs[0], Replacement(w, refs[0])) +
      Interleaved(text, refs[1..], w, refs[0].end)
  }

  function Piece(text: string, r: Ref, replacement: Option<string>): string
    requires r.start <= r.end <= |text|
  {
    match replacement
    case Some(value) => value
    case None => text[r.start..r.end]
  }

  function SkillText(slug: string): string {
    "the \"" + slug + "\" skill"
  }

  function ConnectionText(name: string): string {
    "the \"" + name + "\" connection"
  }

  /** A task message knows a value for each trigger path; a persona has none and keeps such references. */
  datatype Writer = TaskMessage(value: string -> string) | Persona

  function Replacement(w: Writer, r: Ref): Option<string> {
    match r.kind
    case Trigger(path) => if w.TaskMessage? then Some(w.value(path)) else None
    case Skill(slug) => Some(SkillText(slug))
    case Connection(name) => Some(ConnectionText(name))
    case PipelineScope => None
  }

  function Replaced(text: string, r: Ref, replacement: Option<string>): string
    requires r.start <= r.end <= |text|
  {
    match replacement
    case Some(value) => text[..r.start] + value + text[r.end..]
    case None => text
  }

  /** The text with its spans from the k-th on rewritten and everything before as it was. */
  ghost function RewrittenFrom(text: string, refs: seq<Ref>, w: Writer, k: nat): string
    requires Spans(text, refs) && k <= |refs|
  {
    var from := if k == 0 then 0 else refs[k - 1].end;
    text[..from] + Interleaved(text, refs[k..], w, from)
  }

  lemma NothingRewritten(text: string, refs: seq<Ref>, w: Writer)
    requires Spans(text, refs)
    ensures RewrittenFrom(text, refs, w, |refs|) == text
  {
    assert refs[|refs|..] == [];
  }

  lemma Splice(text: string, from: nat, start: nat, end: nat, piece: string, tail: string)
    requires from <= start <= end <= |text|
    ensures var done := text[..end] + tail;
            done[..start] + piece + done[end..] == text[..from] + (text[from..start] + piece + tail)
    ensures text[..start] + text[start..end] == text[..end]
  {
    var done := text[..end] + tail;
    assert done[..start] == text[..from] + text[from..start] && done[end..] == tail;
  }

  lemma Skip(text: string, from: nat, start: nat, end: nat, tail: string)
    requires from <= start <= end <= |text|
    ensures text[..end] + tail == text[..from] + (text[from..start] + text[start..end] + tail)
  {
    assert text[..end] == text[..from] + text[from..start] + text[start..end];
  }

  lemma NextSpan(text: string, refs: seq<Ref>, w: Writer, k: nat, from: nat)
    requires Spans(text, refs) && k < |refs| && from == (if k == 0 then 0 else refs[k - 1].end)
    ensures from <= refs[k].start
    ensures Interleaved(text, refs[k..], w, from) ==
            text[from..refs[k].start] + Piece(text, refs[k], Replacement(w, refs[k])) +
            Interleaved(text, refs[k + 1..], w, refs[k].end)
  {
    assert refs[k..][1..] == refs[k + 1..];
  }

  lemma RewriteOne(text: string, refs: seq<Ref>, w: Writer, k: nat)
    requires Spans(text, refs) && k < |refs|
    ensures refs[k].end <= |RewrittenFrom(text, refs, w, k + 1)|
    ensures Replaced(RewrittenFrom(text, refs, w, k + 1), refs[k], Replacement(w, refs[k])) ==
            RewrittenFrom(text, refs, w, k)
  {
    var r, tail := refs[k], Interleaved(text, refs[k + 1..], w, refs[k].end);
    var from := if k == 0 then 0 else refs[k - 1].end;
    NextSpan(text, refs, w, k, from);
    match Replacement(w, r)
    case Some(value) => Splice(text, from, r.start, r.end, value, tail);
    case None => Skip(text, from, r.start, r.end, tail);
  }

  lemma RewrittenAll(text: string, refs: seq<Ref>, w: Writer)
    requires Spans(text, refs)
    ensures RewrittenFrom(text, refs, w, 0) == Interleaved(text, refs, w, 0)
  {
    assert refs[0..] == refs;
  }

  /** The backward loop gives what one pass from the left would. */
  method RewriteBackwards(w: Writer, text: string, refs: seq<Ref>) returns (resolved: string)
    requires Spans(text, refs)
    ensures resolved == Interleaved(text, refs, w, 0)
  {
    resolved := text;
    NothingRewritten(text, refs, w);
    var k := |refs|;
    while k > 0
      invariant 0 <= k <= |refs|
      invariant resolved == RewrittenFrom(text, refs, w, k)
    {
      k := k - 1;
      RewriteOne(text, refs, w, k);
      resolved := Replaced(resolved, refs[k], Replacement(w, refs[k]));
    }
    RewrittenAll(text, refs, w);
  }

  datatype PersonaError =
    | TriggerRefNotAllowed(at: nat)
    | PipelineRefNotAllowed(at: nat)
    | UnresolvedReference(at: nat)

  datatype Validity = Valid | Rejected(error: PersonaError)

  predicate Resolves(r: Ref, skills: set<string>, connections: set<string>) {
    match r.kind
    case Skill(slug) => slug != "" && slug in skills
    case Connection(name) => name in connections
    case _ => false
  }

  function ErrorOf(r: Ref, i: nat): PersonaError {
    match r.kind
    case Trigger(_) => TriggerRefNotAllowed(i)
    case PipelineScope => PipelineRefNotAllowed(i)
    case _ => UnresolvedReference(i)
  }

  /** A persona is accepted if every reference resolves; otherwise the first that does not is reported. */
  method ValidatePersona(refs: seq<Ref>, skills: set<string>, connections: set<string>) returns (r: Validity)
    ensures r.Valid? <==> forall i :: 0 <= i < |refs| ==> Resolves(refs[i], skills, connections)
    ensures r.Rejected? ==>
              && r.error.at < |refs| && r.error == ErrorOf(refs[r.error.at], r.error.at)
              && !Resolves(refs[r.error.at], skills, connections)
              && forall i :: 0 <= i < r.error.at ==> Resolves(refs[i], skills, connections)
  {
    var i := 0;
    while i < |refs|
      invariant 0 <= i <= |refs|
      invariant forall j :: 0 <= j < i ==> Resolves(refs[j], skills, connections)
    {
      match refs[i].kind {
        case Trigger(_) => return Rejected(TriggerRefNotAllowed(i));
        case PipelineScope => return Rejected(PipelineRefNotAllowed(i));
        case Skill(slug) =>
          if slug == "" || slug !in skills {
            return Rejected(UnresolvedReference(i));
          }
        case Connection(name) =>
          if name !in connections {
            return Rejected(UnresolvedReference(i));
          }
      }
      i := i + 1;
    }
    return Valid;
  }

  // ---- what the left-to-right reading says

  /** References that are all skipped leave the text as it was. */
  lemma {:induction false} SkippedLeavesText(text: string, refs: seq<Ref>, w: Writer, from: nat)
    requires Spans(text, refs) && from <= |text|
    requires refs != [] ==> from <= refs[0].start
    requires forall i :: 0 <= i < |refs| ==> Replacement(w, refs[i]).None?
    ensures Interleaved(text, refs, w, from) == text[from..]
    decreases refs
  {
    if refs != [] {
      SkippedLeavesText(text, refs[1..], w, refs[0].end);
      var r := refs[0];
      assert text[from..] == text[from..r.start] + text[r.start..r.end] + text[r.end..];
    }
  }
}
