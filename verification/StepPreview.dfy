/** The byte-capped preview of a step's output. */
module StepPreview {

  predicate IsScalar(c: int) {
    0 <= c < 0xD800 || 0xE000 <= c <= 0x10FFFF
  }

  /** A Unicode scalar value. */
  type Scalar = c: int | IsScalar(c)

  /** A byte, as its value from 0 to 255. */
  type Byte = int

  datatype Option<T> = None | Some(value: T)

  const MAX_BYTES := 2048

  const REPLACEMENT: Scalar := 0xFFFD

  // ---- UTF-8 (RFC 3629, section 3)

  function Size(c: Scalar): (n: nat)
    ensures 1 <= n <= 4
  {
    if c < 0x80 then 1 else if c < 0x800 then 2 else if c < 0x10000 then 3 else 4
  }

  function EncodeOne(c: Scalar): (b: seq<Byte>)
    ensures |b| == Size(c)
  {
    if c < 0x80 then [c]
    else if c < 0x800 then [0xC0 + c / 64, 0x80 + c % 64]
    else if c < 0x10000 then [0xE0 + c / 4096, 0x80 + c / 64 % 64, 0x80 + c % 64]
    else [0xF0 + c / 262144, 0x80 + c / 4096 % 64, 0x80 + c / 64 % 64, 0x80 + c % 64]
  }

  function Encode(text: seq<Scalar>): seq<Byte> {
    if text == [] then [] else EncodeOne(text[0]) + Encode(text[1..])
  }

  function SizeOfLead(b: Byte): (n: nat)
    ensures 1 <= n <= 4
  {
    if b < 0x80 then 1 else if b < 0xE0 then 2 else if b < 0xF0 then 3 else 4
  }

  /** The value a complete sequence stands for. */
  function ValueOf(b: seq<Byte>): int
    requires b != [] && |b| == SizeOfLead(b[0])
  {
    if |b| == 1 then b[0]
    else if |b| == 2 then (b[0] - 0xC0) * 64 + (b[1] - 0x80)
    else if |b| == 3 then (b[0] - 0xE0) * 4096 + (b[1] - 0x80) * 64 + (b[2] - 0x80)
    else (b[0] - 0xF0) * 262144 + (b[1] - 0x80) * 4096 + (b[2] - 0x80) * 64 + (b[3] - 0x80)
  }

  /** A sequence cut off by the end of the input becomes one replacement character. */
  function Decode(b: seq<Byte>): seq<Scalar>
    decreases |b|
  {
    if b == [] then [] else
      var n := SizeOfLead(b[0]);
      if n > |b| then [REPLACEMENT]
      else [if IsScalar(ValueOf(b[..n])) then ValueOf(b[..n]) else REPLACEMENT] + Decode(b[n..])
  }

  function StripReplacements(text: seq<Scalar>): seq<Scalar> {
    if text != [] && text[|text| - 1] == REPLACEMENT then StripReplacements(text[..|text| - 1]) else text
  }

  /** `json` is the text of the output, or nothing if it has none. */
  function Preview(json: Option<seq<Scalar>>): Option<seq<Scalar>> {
    if json.None? || json.value == [] then None else
      var bytes := Encode(json.value);
      if |bytes| <= MAX_BYTES then json
      else Some(StripReplacements(Decode(bytes[..MAX_BYTES])))
  }

  // ---- one character

  lemma TwoBytes(c: int)
    requires 0x80 <= c < 0x800
    ensures 0xC2 <= 0xC0 + c / 64 < 0xE0 && c / 64 * 64 + c % 64 == c
  {}

  lemma ThreeBytes(c: int)
    requires 0x800 <= c < 0x10000
    ensures 0xE0 <= 0xE0 + c / 4096 < 0xF0
    ensures c / 4096 * 4096 + c / 64 % 64 * 64 + c % 64 == c
  {
    assert c / 4096 == c / 64 / 64;
  }

  lemma FourBytes(c: int)
    requires 0x10000 <= c <= 0x10FFFF
    ensures 0xF0 <= 0xF0 + c / 262144 <= 0xF4
    ensures c / 262144 * 262144 + c / 4096 % 64 * 4096 + c / 64 % 64 * 64 + c % 64 == c
  {
    assert c / 4096 == c / 64 / 64 && c / 262144 == c / 4096 / 64;
  }

  lemma OneCharacter(c: Scalar)
    ensures var b := EncodeOne(c); SizeOfLead(b[0]) == |b| && ValueOf(b) == c
    ensures forall i :: 0 <= i < Size(c) ==> 0 <= EncodeOne(c)[i] < 256
  {
    assert IsScalar(c);
    if 0x80 <= c < 0x800 {
      TwoBytes(c);
    } else if 0x800 <= c < 0x10000 {
      ThreeBytes(c);
    } else if c >= 0x10000 {
      FourBytes(c);
    }
  }

  // ---- decoding what was encoded, and cut

  lemma DecodeFirst(c: Scalar, rest: seq<Byte>)
    ensures Decode(EncodeOne(c) + rest) == [c] + Decode(rest)
  {
    OneCharacter(c);
    var b := EncodeOne(c) + rest;
    assert b[..Size(c)] == EncodeOne(c) && b[Size(c)..] == rest;
  }

  lemma DecodeCut(c: Scalar, n: nat)
    requires 0 < n < Size(c)
    ensures Decode(EncodeOne(c)[..n]) == [REPLACEMENT]
  {
    OneCharacter(c);
  }

  /** How many whole characters fit in `n` bytes. */
  function Fitting(text: seq<Scalar>, n: nat): (k: nat)
    ensures k <= |text|
  {
    if text == [] || Size(text[0]) > n then 0 else 1 + Fitting(text[1..], n - Size(text[0]))
  }

  lemma {:induction false} EncodedPrefix(text: seq<Scalar>, k: nat)
    requires k <= |text|
    ensures |Encode(text[..k])| <= |Encode(text)| && Encode(text)[..|Encode(text[..k])|] == Encode(text[..k])
  {
    if k > 0 {
      EncodedPrefix(text[1..], k - 1);
      assert text[..k][1..] == text[1..][..k - 1];
    }
  }

  /** The prefix that fits does fit, and one more character would not. */
  lemma {:induction false} FittingIsLongest(text: seq<Scalar>, n: nat)
    ensures var k := Fitting(text, n);
            && |Encode(text[..k])| <= n
            && (k < |text| ==> |Encode(text[..k + 1])| > n)
  {
    var k := Fitting(text, n);
    if k > 0 {
      FittingIsLongest(text[1..], n - Size(text[0]));
      assert text[..k][1..] == text[1..][..k - 1];
      if k < |text| {
        assert text[..k + 1][1..] == text[1..][..k];
      }
    } else if text != [] {
      assert text[..1][1..] == [];
      assert |Encode(text[..1])| == Size(text[0]);
    }
  }

  /** What `DecodeOfCut` says of one text and cut. */
  ghost predicate CutDecodes(text: seq<Scalar>, n: nat)
    requires n <= |Encode(text)|
  {
    var k := Fitting(text, n);
    Decode(Encode(text)[..n]) == text[..k] + if |Encode(text[..k])| < n then [REPLACEMENT] else []
  }

  lemma EncodeCons(c: Scalar, rest: seq<Scalar>)
    ensures Encode([c] + rest) == EncodeOne(c) + Encode(rest)
  {
    assert ([c] + rest)[1..] == rest;
  }

  lemma FittingCons(c: Scalar, rest: seq<Scalar>, m: nat)
    ensures Fitting([c] + rest, m + Size(c)) == 1 + Fitting(rest, m)
  {
    assert ([c] + rest)[1..] == rest;
  }

  lemma CutBytes(a: seq<Byte>, b: seq<Byte>, m: nat)
    requires m <= |b|
    ensures (a + b)[..m + |a|] == a + b[..m]
  {}

  lemma CutPrefix(c: Scalar, rest: seq<Scalar>, k: nat)
    requires k <= |rest|
    ensures ([c] + rest)[..k + 1] == [c] + rest[..k]
    ensures |Encode(([c] + rest)[..k + 1])| == Size(c) + |Encode(rest[..k])|
  {
    EncodeCons(c, rest[..k]);
    assert ([c] + rest)[..k + 1] == [c] + rest[..k];
  }

  lemma CutText(c: Scalar, rest: seq<Scalar>, m: nat)
    requires m <= |Encode(rest)|
    ensures m + Size(c) <= |Encode([c] + rest)|
    ensures Decode(Encode([c] + rest)[..m + Size(c)]) == [c] + Decode(Encode(rest)[..m])
  {
    EncodeCons(c, rest);
    CutBytes(EncodeOne(c), Encode(rest), m);
    DecodeFirst(c, Encode(rest)[..m]);
  }

  lemma CutLater(c: Scalar, rest: seq<Scalar>, m: nat)
    requires m <= |Encode(rest)| && CutDecodes(rest, m)
    ensures m + Size(c) <= |Encode([c] + rest)| && CutDecodes([c] + rest, m + Size(c))
  {
    var k := Fitting(rest, m);
    FittingCons(c, rest, m);
    CutPrefix(c, rest, k);
    CutText(c, rest, m);
    AppendLater(c, rest[..k], if |Encode(rest[..k])| < m then [REPLACEMENT] else []);
  }

  lemma AppendLater(c: Scalar, a: seq<Scalar>, b: seq<Scalar>)
    ensures [c] + (a + b) == ([c] + a) + b
  {}

  lemma CutHere(text: seq<Scalar>, n: nat)
    requires text != [] && n < Size(text[0])
    ensures CutDecodes(text, n)
  {
    assert Fitting(text, n) == 0 && text[..0] == [];
    assert Encode(text)[..n] == EncodeOne(text[0])[..n];
    if n > 0 {
      DecodeCut(text[0], n);
    }
  }

  /** Cutting inside a character leaves the whole ones before it and one replacement. */
  lemma {:induction false} DecodeOfCut(text: seq<Scalar>, n: nat)
    requires n <= |Encode(text)|
    ensures CutDecodes(text, n)
  {
    if text != [] {
      if Size(text[0]) <= n {
        assert [text[0]] + text[1..] == text;
        DecodeOfCut(text[1..], n - Size(text[0]));
        CutLater(text[0], text[1..], n - Size(text[0]));
      } else {
        CutHere(text, n);
      }
    }
  }

  lemma {:induction false} StripLast(text: seq<Scalar>)
    ensures StripReplacements(text + [REPLACEMENT]) == StripReplacements(text)
  {
    assert (text + [REPLACEMENT])[..|text|] == text;
  }

  /** Stripping takes off replacement characters at the end and nothing else. */
  lemma {:induction false} StripsOnlyReplacements(text: seq<Scalar>)
    ensures var kept := StripReplacements(text);
            && kept <= text
            && (forall i :: |kept| <= i < |text| ==> text[i] == REPLACEMENT)
            && (kept != [] ==> kept[|kept| - 1] != REPLACEMENT)
  {
    if text != [] && text[|text| - 1] == REPLACEMENT {
      StripsOnlyReplacements(text[..|text| - 1]);
    }
  }

  lemma {:induction false} EncodeAppend(text: seq<Scalar>, c: Scalar)
    ensures Encode(text + [c]) == Encode(text) + EncodeOne(c)
  {
    if text == [] {
      assert text + [c] == [c];
      assert [c][1..] == [];
      assert EncodeOne(c) + [] == EncodeOne(c);
    } else {
      assert (text + [c])[1..] == text[1..] + [c];
      EncodeAppend(text[1..], c);
    }
  }

  /**
   * The preview of an over-long text is its longest prefix of whole characters that fits the cap,
   * without replacement characters at the end; before those go it has at most three bytes to spare.
   */
  lemma PreviewIsLongestPrefix(json: seq<Scalar>)
    requires |Encode(json)| > 2048
    ensures var k := Fitting(json, 2048);
            && k < |json|
            && Preview(Some(json)) == Some(StripReplacements(json[..k]))
            && 2045 <= |Encode(json[..k])| <= 2048 < |Encode(json[..k + 1])|
  {
    var k := Fitting(json, MAX_BYTES);
    FittingIsLongest(json, MAX_BYTES);
    DecodeOfCut(json, MAX_BYTES);
    assert json[..|json|] == json;
    assert json[..k + 1] == json[..k] + [json[k]];
    EncodeAppend(json[..k], json[k]);
    StripLast(json[..k]);
    assert json[..k] + [] == json[..k];
  }

  lemma PreviewFits(json: Option<seq<Scalar>>)
    ensures Preview(json).None? <==> json.None? || json.value == []
    ensures Preview(json).Some? ==> |Encode(Preview(json).value)| <= 2048 && Preview(json).value <= json.value
    ensures json.Some? && |Encode(json.value)| <= 2048 && json.value != [] ==> Preview(json) == json
  {
    if json.Some? && |Encode(json.value)| > MAX_BYTES {
      PreviewIsLongestPrefix(json.value);
      var whole := json.value[..Fitting(json.value, MAX_BYTES)];
      StripsOnlyReplacements(whole);
      var kept := StripReplacements(whole);
      EncodedPrefix(whole, |kept|);
      assert whole[..|kept|] == kept;
    }
  }

  /** Decoding undoes encoding. */
  lemma {:induction false} DecodeEncode(text: seq<Scalar>)
    ensures Decode(Encode(text)) == text
  {
    if text != [] {
      DecodeFirst(text[0], Encode(text[1..]));
      DecodeEncode(text[1..]);
    }
  }
}
