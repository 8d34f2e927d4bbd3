/** The line-buffered prefixer of the development runner. */
module LinePrefixer {

  type Text = string

  /** `text.split("\n")`: always at least one part. */
  function Split(text: Text): (parts: seq<Text>)
    ensures |parts| >= 1
  {
    if text == "" then [""]
    else if text[0] == '\n' then [""] + Split(text[1..])
    else
      var rest := Split(text[1..]);
      [[text[0]] + rest[0]] + rest[1..]
  }

  function Format(prefix: Text, line: Text): Text {
    prefix + if line != "" && line[|line| - 1] == '\r' then line[..|line| - 1] else line
  }

  function Formatted(prefix: Text, lines: seq<Text>): (r: seq<Text>)
    ensures |r| == |lines|
  {
    if lines == [] then [] else [Format(prefix, lines[0])] + Formatted(prefix, lines[1..])
  }

  /** The lines of a whole text: a last line without a line feed counts if it is not empty. */
  function LinesOf(text: Text): seq<Text> {
    DropEmpty(Split(text))
  }

  function DropEmpty(parts: seq<Text>): seq<Text>
    requires parts != []
  {
    if parts[|parts| - 1] == "" then parts[..|parts| - 1] else parts
  }

  function Concat(chunks: seq<Text>): Text {
    if chunks == [] then "" else chunks[0] + Concat(chunks[1..])
  }

  /** One chunk: the lines that are now complete, and what is held back. */
  function PushedOne(prefix: Text, partial: Text, chunk: Text): (r: (seq<Text>, Text)) {
    var parts := Split(partial + chunk);
    (Formatted(prefix, parts[..|parts| - 1]), parts[|parts| - 1])
  }

  function Pushed(prefix: Text, partial: Text, chunks: seq<Text>): (r: (seq<Text>, Text))
    decreases chunks
  {
    if chunks == [] then ([], partial) else
      var first := PushedOne(prefix, partial, chunks[0]);
      var rest := Pushed(prefix, first.1, chunks[1..]);
      (first.0 + rest.0, rest.1)
  }

  function Flushed(prefix: Text, partial: Text): seq<Text> {
    if partial == "" then [] else [Format(prefix, partial)]
  }

  class Prefixer {
    const prefix: Text
    var partial: Text
    /** What has been pushed since the last flush, and what has come out. */
    ghost var chunks: seq<Text>
    ghost var printed: seq<Text>

    ghost predicate Valid()
      reads this
    {
      (printed, partial) == Pushed(prefix, "", chunks)
    }

    constructor (prefix: Text)
      ensures Valid() && this.prefix == prefix && chunks == [] && printed == []
    {
      this.prefix := prefix;
      partial := "";
      chunks, printed := [], [];
    }

    method Push(chunk: Text) returns (lines: seq<Text>)
      requires Valid()
      modifies this
      ensures Valid() && chunks == old(chunks) + [chunk] && printed == old(printed) + lines
      ensures (lines, partial) == PushedOne(prefix, old(partial), chunk)
    {
      var parts := Split(partial + chunk);
      partial := parts[|parts| - 1];
      lines := Formatted(prefix, parts[..|parts| - 1]);
      PushedNext(prefix, "", chunks, chunk);
      chunks, printed := chunks + [chunk], printed + lines;
    }

    /** With the flush, all lines of the text pushed since the last one have come out, however it was cut. */
    method Flush() returns (lines: seq<Text>)
      requires Valid()
      modifies this
      ensures Valid() && chunks == [] && printed == []
      ensures lines == Flushed(prefix, old(partial))
      ensures old(printed) + lines == Formatted(prefix, LinesOf(Concat(old(chunks))))
    {
      ChunksDoNotMatter(prefix, "", chunks);
      assert "" + Concat(chunks) == Concat(chunks);
      lines := if partial == "" then [] else [Format(prefix, partial)];
      partial := "";
      chunks, printed := [], [];
    }
  }

  predicate Newline(text: Text) {
    '\n' in text
  }

  /** One more push goes on from what the pushes before it held back. */
  lemma {:induction false} PushedNext(prefix: Text, partial: Text, chunks: seq<Text>, chunk: Text)
    ensures var (lines, held) := Pushed(prefix, partial, chunks);
            var next := PushedOne(prefix, held, chunk);
            Pushed(prefix, partial, chunks + [chunk]) == (lines + next.0, next.1)
    decreases chunks
  {
    if chunks == [] {
      assert chunks + [chunk] == [chunk];
      assert [chunk][1..] == [];
      var next := PushedOne(prefix, partial, chunk);
      assert next.0 + [] == next.0 == [] + next.0;
    } else {
      var first := PushedOne(prefix, partial, chunks[0]);
      PushedNext(prefix, first.1, chunks[1..], chunk);
      assert (chunks + [chunk])[1..] == chunks[1..] + [chunk];
      var (lines, held) := Pushed(prefix, first.1, chunks[1..]);
      Regroup(first.0, lines, PushedOne(prefix, held, chunk).0);
    }
  }

  // ---- splitting

  lemma {:induction false} LastHasNoNewline(text: Text)
    ensures !Newline(Split(text)[|Split(text)| - 1])
    ensures !Newline(text) ==> Split(text) == [text]
  {
    if text != "" {
      LastHasNoNewline(text[1..]);
      assert [text[0]] + text[1..] == text;
    }
  }

  lemma SplitBreak(text: Text)
    ensures Split("\n" + text) == [""] + Split(text)
  {
    assert ("\n" + text)[1..] == text;
  }

  lemma SplitChar(c: char, text: Text)
    requires c != '\n'
    ensures Split([c] + text) == [[c] + Split(text)[0]] + Split(text)[1..]
  {
    assert ([c] + text)[1..] == text;
  }

  /** The last part of `a` grows by `b`, as far as `b` has no line feed. */
  function Continued(a: seq<Text>, b: Text): (parts: seq<Text>)
    requires a != []
    ensures parts != []
  {
    a[..|a| - 1] + Split(a[|a| - 1] + b)
  }

  lemma ContinuedTail(first: Text, rest: seq<Text>, b: Text)
    requires rest != []
    ensures Continued([first] + rest, b) == [first] + Continued(rest, b)
  {
    assert ([first] + rest)[..|rest|] == [first] + rest[..|rest| - 1];
  }

  lemma ContinuedChar(c: char, rest: seq<Text>, b: Text)
    requires c != '\n' && rest != []
    ensures Continued([[c] + rest[0]] + rest[1..], b) == [[c] + Continued(rest, b)[0]] + Continued(rest, b)[1..]
  {
    if |rest| == 1 {
      assert [[c] + rest[0]] + rest[1..] == [[c] + rest[0]];
      assert [c] + rest[0] + b == [c] + (rest[0] + b);
      SplitChar(c, rest[0] + b);
      assert Continued(rest, b) == Split(rest[0] + b);
      assert Continued([[c] + rest[0]], b) == Split([c] + rest[0] + b);
    } else {
      ContinuedTail([c] + rest[0], rest[1..], b);
      assert rest == [rest[0]] + rest[1..];
      ContinuedTail(rest[0], rest[1..], b);
      assert ([rest[0]] + Continued(rest[1..], b))[1..] == Continued(rest[1..], b);
    }
  }

  /** Splitting goes on from the last part. */
  lemma {:induction false} SplitContinues(a: Text, b: Text)
    ensures Split(a + b) == Continued(Split(a), b)
  {
    if a == "" {
      assert a + b == b && [""][0] + b == b;
      assert [""][..0] + Split(b) == Split(b);
    } else {
      SplitContinues(a[1..], b);
      assert a + b == [a[0]] + (a[1..] + b) && a == [a[0]] + a[1..];
      if a[0] == '\n' {
        SplitBreak(a[1..]);
        SplitBreak(a[1..] + b);
        ContinuedTail("", Split(a[1..]), b);
      } else {
        SplitChar(a[0], a[1..]);
        SplitChar(a[0], a[1..] + b);
        ContinuedChar(a[0], Split(a[1..]), b);
      }
    }
  }

  lemma {:induction false} FormattedConcat(prefix: Text, a: seq<Text>, b: seq<Text>)
    ensures Formatted(prefix, a + b) == Formatted(prefix, a) + Formatted(prefix, b)
  {
    if a == [] {
      assert a + b == b;
    } else {
      assert (a + b)[1..] == a[1..] + b;
      FormattedConcat(prefix, a[1..], b);
    }
  }

  lemma DropEmptyLast(a: seq<Text>, b: seq<Text>)
    requires b != []
    ensures DropEmpty(a + b) == a + DropEmpty(b)
  {}

  lemma DropEmptyContinued(parts: seq<Text>, b: Text)
    requires parts != []
    ensures DropEmpty(Continued(parts, b)) == parts[..|parts| - 1] + LinesOf(parts[|parts| - 1] + b)
  {
    DropEmptyLast(parts[..|parts| - 1], Split(parts[|parts| - 1] + b));
  }

  lemma LinesContinue(a: Text, b: Text)
    ensures LinesOf(a + b) == Split(a)[..|Split(a)| - 1] + LinesOf(Split(a)[|Split(a)| - 1] + b)
  {
    SplitContinues(a, b);
    DropEmptyContinued(Split(a), b);
    SplitLines(a + b, Continued(Split(a), b));
  }

  lemma SplitLines(text: Text, parts: seq<Text>)
    requires Split(text) == parts
    ensures LinesOf(text) == DropEmpty(parts)
  {}

  /** However a text is cut into chunks, the lines that come out are the lines of the whole text. */
  lemma {:induction false} ChunksDoNotMatter(prefix: Text, partial: Text, chunks: seq<Text>)
    requires !Newline(partial)
    ensures var (lines, held) := Pushed(prefix, partial, chunks);
            lines + Flushed(prefix, held) == Formatted(prefix, LinesOf(partial + Concat(chunks)))
    decreases chunks
  {
    if chunks == [] {
      NoChunks(prefix, partial);
    } else {
      var first := PushedOne(prefix, partial, chunks[0]);
      LastHasNoNewline(partial + chunks[0]);
      ChunksDoNotMatter(prefix, first.1, chunks[1..]);
      FirstChunk(prefix, partial, chunks[0], Concat(chunks[1..]));
      var (lines, held) := Pushed(prefix, first.1, chunks[1..]);
      Regroup(first.0, lines, Flushed(prefix, held));
    }
  }

  lemma NoChunks(prefix: Text, partial: Text)
    requires !Newline(partial)
    ensures [] + Flushed(prefix, partial) == Formatted(prefix, LinesOf(partial + ""))
  {
    assert partial + "" == partial;
    LastHasNoNewline(partial);
    assert [partial][..0] == [] && [partial][1..] == [];
    assert Formatted(prefix, [partial]) == [Format(prefix, partial)] + Formatted(prefix, []);
  }

  lemma Regroup(a: seq<Text>, b: seq<Text>, c: seq<Text>)
    ensures (a + b) + c == a + (b + c)
  {}

  lemma FirstChunk(prefix: Text, partial: Text, chunk: Text, rest: Text)
    ensures var first := PushedOne(prefix, partial, chunk);
            Formatted(prefix, LinesOf(partial + (chunk + rest))) ==
            first.0 + Formatted(prefix, LinesOf(first.1 + rest))
  {
    var parts := Split(partial + chunk);
    LinesContinue(partial + chunk, rest);
    assert partial + (chunk + rest) == (partial + chunk) + rest;
    FormattedConcat(prefix, parts[..|parts| - 1], LinesOf(parts[|parts| - 1] + rest));
  }

  function JoinLines(parts: seq<Text>): Text
    requires parts != []
  {
    if |parts| == 1 then parts[0] else parts[0] + "\n" + JoinLines(parts[1..])
  }

  /** The parts are the text cut at its line feeds. */
  lemma {:induction false} SplitIsExact(text: Text)
    ensures JoinLines(Split(text)) == text && forall p <- Split(text) :: !Newline(p)
  {
    if text != "" {
      var rest := Split(text[1..]);
      SplitIsExact(text[1..]);
      assert [text[0]] + text[1..] == text;
      if text[0] == '\n' {
        JoinCons("", rest);
        assert "" + "\n" + text[1..] == text;
      } else {
        LongerFirst(text[0], rest);
        assert rest[0] in rest && forall p <- rest[1..] :: p in rest;
      }
    }
  }

  lemma JoinCons(first: Text, rest: seq<Text>)
    requires rest != []
    ensures JoinLines([first] + rest) == first + "\n" + JoinLines(rest)
  {
    assert ([first] + rest)[1..] == rest;
  }

  lemma LongerFirst(c: char, parts: seq<Text>)
    requires parts != []
    ensures JoinLines([[c] + parts[0]] + parts[1..]) == [c] + JoinLines(parts)
  {
    if |parts| == 1 {
      assert [[c] + parts[0]] + parts[1..] == [[c] + parts[0]];
    } else {
      JoinCons([c] + parts[0], parts[1..]);
      Longer(c, parts[0], JoinLines(parts[1..]));
    }
  }

  lemma Longer(c: char, first: Text, rest: Text)
    ensures [c] + (first + "\n" + rest) == ([c] + first) + "\n" + rest
  {}

  /** A line comes out as the prefix and the line, without one carriage return at its end. */
  lemma FormattedAt(prefix: Text, lines: seq<Text>, k: nat) returns (shown: Text)
    requires k < |lines|
    ensures Formatted(prefix, lines)[k] == prefix + shown
    ensures lines[k] == shown + "\r" || (lines[k] == shown && (shown == "" || shown[|shown| - 1] != '\r'))
  {
    if k == 0 {
      var line := lines[0];
      shown := if line != "" && line[|line| - 1] == '\r' then line[..|line| - 1] else line;
      assert line != "" ==> line == line[..|line| - 1] + [line[|line| - 1]];
    } else {
      shown := FormattedAt(prefix, lines[1..], k - 1);
    }
  }
}
