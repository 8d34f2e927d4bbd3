/** The changelog file: where a release section goes, and how the newest one is read back. */
module Changelog {

  datatype Option<T> = None | Some(value: T)

  datatype Latest = Latest(heading: string, body: string)

  predicate StartsWith(s: string, prefix: string) {
    |prefix| <= |s| && s[..|prefix|] == prefix
  }

  predicate EndsWithNewline(s: string) {
    s != "" && s[|s| - 1] == '\n'
  }

  /** The white space that `trim` takes off. */
  predicate IsSpace(c: char) {
    || c in {' ', '\t', '\n', '\r', '\U{B}', '\U{C}', '\U{A0}', '\U{1680}',
             '\U{2028}', '\U{2029}', '\U{202F}', '\U{205F}'}
    || c in {'\U{3000}', '\U{FEFF}'}
    || '\U{2000}' <= c <= '\U{200A}'
  }

  function TrimStart(s: string): string {
    if s != "" && IsSpace(s[0]) then TrimStart(s[1..]) else s
  }

  function TrimEnd(s: string): string {
    if s != "" && IsSpace(s[|s| - 1]) then TrimEnd(s[..|s| - 1]) else s
  }

  function Trim(s: string): string {
    TrimEnd(TrimStart(s))
  }

  predicate AllSpace(s: string) {
    forall i :: 0 <= i < |s| ==> IsSpace(s[i])
  }

  lemma {:induction false} TrimStartSplits(s: string) returns (before: string)
    ensures s == before + TrimStart(s) && AllSpace(before)
    ensures TrimStart(s) != "" ==> !IsSpace(TrimStart(s)[0])
  {
    before := "";
    if s != "" && IsSpace(s[0]) {
      var more := TrimStartSplits(s[1..]);
      before := [s[0]] + more;
      assert s == [s[0]] + s[1..];
    }
  }

  lemma {:induction false} TrimEndSplits(s: string) returns (after: string)
    ensures s == TrimEnd(s) + after && AllSpace(after) && TrimEnd(s) <= s
    ensures TrimEnd(s) != "" ==> !IsSpace(TrimEnd(s)[|TrimEnd(s)| - 1])
  {
    after := "";
    if s != "" && IsSpace(s[|s| - 1]) {
      var more := TrimEndSplits(s[..|s| - 1]);
      after := more + [s[|s| - 1]];
      assert s == s[..|s| - 1] + [s[|s| - 1]];
    }
  }

  /** Trimming takes white space off both ends, all of it and nothing else. */
  lemma TrimIsExact(s: string) returns (before: string, after: string)
    ensures s == before + Trim(s) + after && AllSpace(before) && AllSpace(after)
    ensures Trim(s) != "" ==> !IsSpace(Trim(s)[0]) && !IsSpace(Trim(s)[|Trim(s)| - 1])
  {
    before := TrimStartSplits(s);
    after := TrimEndSplits(TrimStart(s));
    assert before + (Trim(s) + after) == before + Trim(s) + after;
  }

  /** `s.indexOf("\n## ", from)`. */
  function FindHeading(s: string, from: nat): (r: int)
    ensures -1 <= r && (r >= 0 ==> from <= r && r + 4 <= |s|)
    decreases |s| - from
  {
    if from + 4 > |s| then -1
    else if s[from..from + 4] == "\n## " then from
    else FindHeading(s, from + 1)
  }

  /** `s.indexOf("\n")`. */
  function FindNewline(s: string): (r: int)
    ensures -1 <= r < |s|
    ensures r >= 0 ==> s[r] == '\n' && '\n' !in s[..r]
    ensures r == -1 ==> '\n' !in s
  {
    if s == "" then -1
    else if s[0] == '\n' then 0
    else
      var r := FindNewline(s[1..]);
      if r == -1 then -1 else r + 1
  }

  function First(s: string): nat {
    if StartsWith(s, "## ") then 0 else FindHeading(s, 0) + 1
  }

  predicate HasHeading(s: string) {
    StartsWith(s, "## ") || First(s) > 0
  }

  function InsertSection(changelog: string, section: string): string {
    var body := if EndsWithNewline(section) then section else section + "\n";
    if !HasHeading(changelog) then
      if changelog == "" then body
      else changelog + (if EndsWithNewline(changelog) then "\n" else "\n\n") + body
    else
      changelog[..First(changelog)] + body + "\n" + changelog[First(changelog)..]
  }

  function ExtractLatestSection(changelog: string): Option<Latest> {
    if !HasHeading(changelog) then None else
      var rest := changelog[First(changelog)..];
      var newline := FindNewline(rest);
      var heading := if newline == -1 then Drop3(rest) else Drop3(rest[..newline]);
      var after := if newline == -1 then "" else rest[newline + 1..];
      var next := FindHeading(after, 0);
      Some(Latest(Trim(heading), Trim(if next == -1 then after else after[..next])))
  }

  /** `s.slice(3)`. */
  function Drop3(s: string): string {
    if |s| < 3 then "" else s[3..]
  }

  // ---- the search, without positions of `indexOf`

  /** A line that begins a release section starts at `p`. */
  predicate StartsAt(s: string, p: nat) {
    p <= |s| && (p == 0 || s[p - 1] == '\n') && StartsWith(s[p..], "## ")
  }

  predicate HeadingAfter(s: string, q: nat) {
    q + 4 <= |s| && s[q..q + 4] == "\n## "
  }

  lemma {:induction false} FindIsLeast(s: string, from: nat)
    ensures var r := FindHeading(s, from);
            && (r >= 0 ==> HeadingAfter(s, r))
            && (forall q: nat :: from <= q && (r == -1 || q < r) ==> !HeadingAfter(s, q))
    decreases |s| - from
  {
    if from + 4 <= |s| && s[from..from + 4] != "\n## " {
      FindIsLeast(s, from + 1);
    }
  }

  lemma HeadingLine(s: string, q: nat)
    requires q + 4 <= |s|
    ensures HeadingAfter(s, q) <==> StartsAt(s, q + 1)
  {
    assert s[q + 1..][..3] == s[q..q + 4][1..];
    assert s[q] == s[q..q + 4][0];
    if StartsAt(s, q + 1) {
      assert s[q..q + 4] == [s[q]] + s[q + 1..][..3];
    }
  }

  /** `First` is where the first line that begins a section starts, if there is one. */
  lemma FirstIsLeast(s: string)
    ensures HasHeading(s) ==> StartsAt(s, First(s))
    ensures forall q: nat :: StartsAt(s, q) ==> HasHeading(s) && First(s) <= q
  {
    assert s[0..] == s;
    FindIsLeast(s, 0);
    forall q: nat | StartsAt(s, q) ensures HasHeading(s) && First(s) <= q {
      if q > 0 {
        HeadingLine(s, q - 1);
      }
    }
    if !StartsWith(s, "## ") && First(s) > 0 {
      HeadingLine(s, First(s) - 1);
    }
  }

  // ---- putting a section in and reading it back

  /** A section: a heading line, then text with no line that would begin another. */
  ghost predicate IsSection(head: string, rest: string) {
    '\n' !in head && EndsWithNewline(rest) && FindHeading(rest, 0) == -1
  }

  function SectionText(head: string, rest: string): string {
    "## " + head + "\n" + rest
  }

  lemma PrefixStarts(a: string, b: string, q: nat)
    requires q + 3 <= |a|
    ensures StartsAt(a, q) <==> StartsAt(a + b, q)
  {
    assert a[q..][..3] == (a + b)[q..][..3];
  }

  lemma NothingBefore(pre: string, tail: string, f: nat)
    requires EndsWithNewline(pre) && f < |pre|
    requires f + 3 <= |pre| ==> !StartsAt(pre, f)
    ensures !StartsAt(pre + tail, f)
  {
    if f + 3 <= |pre| {
      PrefixStarts(pre, tail, f);
    } else {
      assert (pre + tail)[f..][|pre| - 1 - f] == '\n';
    }
  }

  /** What precedes the section has no heading of its own, so the section is the first. */
  lemma SectionIsFirst(pre: string, head: string, tail: string)
    requires pre == "" || EndsWithNewline(pre)
    requires forall q: nat :: q + 3 <= |pre| ==> !StartsAt(pre, q)
    ensures var t := pre + ("## " + head + tail); HasHeading(t) && First(t) == |pre|
  {
    var t := pre + ("## " + head + tail);
    assert t[|pre|..] == "## " + head + tail;
    assert t[|pre|..][..3] == "## ";
    assert StartsAt(t, |pre|);
    FirstIsLeast(t);
    if First(t) < |pre| {
      NothingBefore(pre, "## " + head + tail, First(t));
    }
  }

  /** No heading starts across the end of a section either. */
  lemma NoHeadingBefore(rest: string, post: string, q: nat)
    requires EndsWithNewline(rest) && FindHeading(rest, 0) == -1
    requires StartsWith(post, "\n## ")
    requires q < |rest|
    ensures !HeadingAfter(rest + post, q)
  {
    FindIsLeast(rest, 0);
    if q + 4 <= |rest| {
      assert (rest + post)[q..q + 4] == rest[q..q + 4] && !HeadingAfter(rest, q);
    } else if q == |rest| - 1 {
      assert (rest + post)[q..q + 4][1] == post[..4][0] == '\n';
    } else {
      assert (rest + post)[q..q + 4][|rest| - 1 - q] == '\n';
    }
  }

  lemma SectionEnds(rest: string, post: string)
    requires EndsWithNewline(rest) && FindHeading(rest, 0) == -1
    requires post == "" || StartsWith(post, "\n## ")
    ensures var next := FindHeading(rest + post, 0);
            (if next == -1 then rest + post else (rest + post)[..next]) == rest
  {
    if post == "" {
      assert rest + post == rest;
    } else {
      FindIsLeast(rest + post, 0);
      assert (rest + post)[|rest|..|rest| + 4] == post[..4] && HeadingAfter(rest + post, |rest|);
      forall q: nat | q < |rest| ensures !HeadingAfter(rest + post, q) {
        NoHeadingBefore(rest, post, q);
      }
    }
  }

  /** Reading a file whose first section starts where `from` does. */
  lemma ReadsFrom(t: string, head: string, rest: string, post: string)
    requires IsSection(head, rest)
    requires post == "" || StartsWith(post, "\n## ")
    requires HasHeading(t) && First(t) <= |t| && t[First(t)..] == "## " + head + "\n" + (rest + post)
    ensures ExtractLatestSection(t) == Some(Latest(Trim(head), Trim(rest)))
  {
    var from := t[First(t)..];
    NewlineAfter("## " + head, rest + post);
    assert from[..3 + |head|] == "## " + head && Drop3("## " + head) == head;
    assert from[3 + |head| + 1..] == rest + post;
    SectionEnds(rest, post);
  }

  lemma ReadsSection(pre: string, head: string, rest: string, post: string)
    requires IsSection(head, rest)
    requires pre == "" || EndsWithNewline(pre)
    requires forall q: nat :: q + 3 <= |pre| ==> !StartsAt(pre, q)
    requires post == "" || StartsWith(post, "\n## ")
    ensures ExtractLatestSection(pre + SectionText(head, rest) + post) == Some(Latest(Trim(head), Trim(rest)))
  {
    var t := pre + SectionText(head, rest) + post;
    assert t == pre + ("## " + head + ("\n" + rest + post));
    SectionIsFirst(pre, head, "\n" + rest + post);
    assert t[|pre|..] == "## " + head + "\n" + (rest + post);
    ReadsFrom(t, head, rest, post);
  }

  lemma {:induction false} NewlineAfter(a: string, b: string)
    requires '\n' !in a
    ensures FindNewline(a + "\n" + b) == |a|
  {
    if a != "" {
      assert (a + "\n" + b)[1..] == a[1..] + "\n" + b;
      NewlineAfter(a[1..], b);
    }
  }

  lemma NothingInPadding(changelog: string, sep: string, q: nat)
    requires sep == "\n" || sep == "\n\n"
    requires q + 3 <= |changelog + sep|
    requires q + 3 <= |changelog| ==> !StartsAt(changelog, q)
    ensures !StartsAt(changelog + sep, q)
  {
    if q + 3 <= |changelog| {
      PrefixStarts(changelog, sep, q);
    } else {
      assert (changelog + sep)[q..][..3][2] == '\n';
    }
  }

  lemma NothingBeforeFirst(changelog: string, q: nat)
    requires HasHeading(changelog) && First(changelog) <= |changelog| && q + 3 <= First(changelog)
    ensures !StartsAt(changelog[..First(changelog)], q)
  {
    var f := First(changelog);
    FirstIsLeast(changelog);
    assert changelog[..f] + changelog[f..] == changelog;
    PrefixStarts(changelog[..f], changelog[f..], q);
  }

  /** An old release after a line feed begins with a heading line. */
  lemma HeadingFollows(older: string)
    requires StartsWith(older, "## ")
    ensures StartsWith("\n" + older, "\n## ")
  {
    assert ("\n" + older)[..4] == "\n" + older[..3];
  }

  /** What stands before the newest section: the preamble, padded to a blank line if no release follows it. */
  function Preamble(changelog: string): string {
    if HasHeading(changelog) then changelog[..First(changelog)]
    else if changelog == "" then ""
    else changelog + if EndsWithNewline(changelog) then "\n" else "\n\n"
  }

  /** The older releases. */
  function Older(changelog: string): string {
    if HasHeading(changelog) then changelog[First(changelog)..] else ""
  }

  /** What follows a section put in: a blank line and the older releases, if there are any. */
  function Follows(changelog: string): string {
    if HasHeading(changelog) then "\n" + Older(changelog) else ""
  }

  /** The line feed that separates a section from the next; a file that had no release ends without it. */
  function Missing(changelog: string): string {
    if HasHeading(changelog) then "" else "\n"
  }

  /** Where a section goes: after the preamble, before the older releases. */
  lemma InsertSplits(changelog: string, section: string)
    requires EndsWithNewline(section)
    ensures InsertSection(changelog, section) == Preamble(changelog) + section + Follows(changelog)
  {
    if HasHeading(changelog) {
      var f := First(changelog);
      assert changelog[..f] + section + "\n" + changelog[f..] == changelog[..f] + section + ("\n" + changelog[f..]);
    } else {
      assert Preamble(changelog) + section + "" == Preamble(changelog) + section;
      assert "" + section == section;
    }
  }

  lemma PreambleHasNoHeading(changelog: string, q: nat)
    requires q + 3 <= |Preamble(changelog)|
    ensures !StartsAt(Preamble(changelog), q)
  {
    FirstIsLeast(changelog);
    if HasHeading(changelog) {
      NothingBeforeFirst(changelog, q);
    } else if changelog != "" {
      NothingInPadding(changelog, if EndsWithNewline(changelog) then "\n" else "\n\n", q);
    }
  }

  /** The preamble is empty or ends a line, and no release begins in it. */
  lemma PreambleIsPlain(changelog: string)
    ensures Preamble(changelog) == "" || EndsWithNewline(Preamble(changelog))
    ensures forall q: nat :: q + 3 <= |Preamble(changelog)| ==> !StartsAt(Preamble(changelog), q)
  {
    FirstIsLeast(changelog);
    forall q: nat | q + 3 <= |Preamble(changelog)| ensures !StartsAt(Preamble(changelog), q) {
      PreambleHasNoHeading(changelog, q);
    }
  }

  lemma FollowsIsHeading(changelog: string)
    ensures Follows(changelog) == "" || StartsWith(Follows(changelog), "\n## ")
  {
    FirstIsLeast(changelog);
    if HasHeading(changelog) {
      HeadingFollows(Older(changelog));
    }
  }

  lemma SectionEndsLine(head: string, rest: string)
    requires EndsWithNewline(rest)
    ensures EndsWithNewline(SectionText(head, rest))
  {
    var section := SectionText(head, rest);
    assert section[|section| - 1] == rest[|rest| - 1];
  }

  /** What is inserted into any changelog is what is read back. */
  lemma RoundTrip(changelog: string, head: string, rest: string)
    requires IsSection(head, rest)
    ensures ExtractLatestSection(InsertSection(changelog, SectionText(head, rest))) ==
            Some(Latest(Trim(head), Trim(rest)))
  {
    SectionEndsLine(head, rest);
    InsertSplits(changelog, SectionText(head, rest));
    PreambleIsPlain(changelog);
    FollowsIsHeading(changelog);
    ReadsSection(Preamble(changelog), head, rest, Follows(changelog));
  }

  lemma FollowsIsOlder(changelog: string, text: string)
    ensures text + Follows(changelog) + Missing(changelog) == text + "\n" + Older(changelog)
    ensures !HasHeading(changelog) ==> changelog <= Preamble(changelog)
  {
    if HasHeading(changelog) {
      assert text + ("\n" + Older(changelog)) + "" == text + "\n" + Older(changelog);
    } else {
      assert text + "" + "\n" == text + "\n" + "";
    }
  }

  lemma SectionComesFirst(pre: string, head: string, rest: string, post: string)
    requires pre == "" || EndsWithNewline(pre)
    requires forall q: nat :: q + 3 <= |pre| ==> !StartsAt(pre, q)
    ensures var t := pre + SectionText(head, rest) + post; HasHeading(t) && First(t) == |pre| && pre <= t
  {
    assert pre + SectionText(head, rest) + post == pre + ("## " + head + ("\n" + rest + post));
    SectionIsFirst(pre, head, "\n" + rest + post);
  }

  /** For any changelog, inserting leaves what was there as it is, before and after the new section. */
  lemma OlderUnchanged(changelog: string, head: string, rest: string)
    requires IsSection(head, rest)
    ensures var t := InsertSection(changelog, SectionText(head, rest));
            && HasHeading(t) && First(t) == |Preamble(changelog)| && Preamble(changelog) <= t
            && t + Missing(changelog) == Preamble(changelog) + SectionText(head, rest) + "\n" + Older(changelog)
            && (!HasHeading(changelog) ==> changelog <= t)
  {
    var pre, section := Preamble(changelog), SectionText(head, rest);
    SectionEndsLine(head, rest);
    InsertSplits(changelog, section);
    PreambleIsPlain(changelog);
    SectionComesFirst(pre, head, rest, Follows(changelog));
    FollowsIsOlder(changelog, pre + section);
  }

  datatype Release = Release(head: string, rest: string)

  /** Inserts the releases one after the other. */
  function InsertAll(changelog: string, releases: seq<Release>): string {
    if releases == [] then changelog
    else
      var r := releases[|releases| - 1];
      InsertSection(InsertAll(changelog, releases[..|releases| - 1]), SectionText(r.head, r.rest))
  }

  function NewestFirst(releases: seq<Release>): string {
    if releases == [] then ""
    else
      var r := releases[|releases| - 1];
      SectionText(r.head, r.rest) + "\n" + NewestFirst(releases[..|releases| - 1])
  }

  /** For any changelog, repeated inserts put the newest first and leave what was there before and after them. */
  lemma {:induction false} RepeatedInserts(changelog: string, releases: seq<Release>)
    requires releases != [] && forall r <- releases :: IsSection(r.head, r.rest)
    ensures var t := InsertAll(changelog, releases);
            && HasHeading(t) && First(t) == |Preamble(changelog)|
            && t + Missing(changelog) == Preamble(changelog) + NewestFirst(releases) + Older(changelog)
  {
    var r, older := releases[|releases| - 1], releases[..|releases| - 1];
    var u := InsertAll(changelog, older);
    assert r in releases;
    OlderUnchanged(u, r.head, r.rest);
    if older == [] {
      assert NewestFirst(releases) == SectionText(r.head, r.rest) + "\n" + "";
    } else {
      RepeatedInserts(changelog, older);
      FirstIsLeast(u);
      OneMore(u, Missing(changelog), Preamble(changelog), NewestFirst(older), Older(changelog),
        SectionText(r.head, r.rest));
    }
  }

  lemma OneMore(u: string, missing: string, front: string, newer: string, back: string, section: string)
    requires u + missing == front + newer + back && |front| <= |u|
    ensures u[..|front|] == front
    ensures u[..|front|] + section + "\n" + u[|front|..] + missing == front + (section + "\n" + newer) + back
  {
    assert u[..|front|] == (u + missing)[..|front|] == front;
    assert u[|front|..] + missing == (u + missing)[|front|..] == newer + back;
    Splice(front, section, u[|front|..], missing, newer, back);
  }

  lemma Splice(front: string, section: string, tail: string, missing: string, newer: string, back: string)
    requires tail + missing == newer + back
    ensures front + section + "\n" + tail + missing == front + (section + "\n" + newer) + back
  {
    assert front + section + "\n" + tail + missing == front + section + "\n" + (tail + missing);
    assert front + section + "\n" + (newer + back) == front + (section + "\n" + newer) + back;
  }
}
