/** A reader of JSON texts without insignificant white space (RFC 8259, sections 2 to 7). */
module JsonReader {
  import opened JsText
  import opened CanonicalJson
  import N = JsonNumber

  /** What was read, and the text after it. */
  datatype Reading<+T> = Got(value: T, rest: JsString) | Bad

  /** The text begins with a character. */
  predicate Begins(s: JsString, c: char) {
    s != [] && s[0] == Code(c)
  }

  // ---- values

  function ReadValue(s: JsString): (r: Reading<Value>)
    ensures r.Got? ==> |r.rest| < |s|
    decreases |s|, 0
  {
    if Begins(s, '{') then
      if Begins(s[1..], '}') then Got(Obj([]), s[2..])
      else match ReadMembers(s[1..])
        case Got(fields, rest) => Got(Obj(fields), rest)
        case Bad => Bad
    else if Begins(s, '[') then
      if Begins(s[1..], ']') then Got(Arr([]), s[2..])
      else match ReadElements(s[1..])
        case Got(items, rest) => Got(Arr(items), rest)
        case Bad => Bad
    else if Begins(s, '"') then
      match ReadChars(s[1..])
      case Got(text, rest) => Got(Str(text), rest)
      case Bad => Bad
    else if Begins(s, 'n') || Begins(s, 't') || Begins(s, 'f') then ReadWord(s)
    else match ReadNumber(s)
      case Got(x, rest) => Got(Num(x), rest)
      case Bad => Bad
  }

  function ReadWord(s: JsString): (r: Reading<Value>)
    ensures r.Got? ==> |r.rest| < |s|
  {
    if Ascii("null") <= s then Got(Null, s[4..])
    else if Ascii("true") <= s then Got(Bool(true), s[4..])
    else if Ascii("false") <= s then Got(Bool(false), s[5..])
    else Bad
  }

  /** Values between commas, up to the closing bracket. */
  function ReadElements(s: JsString): (r: Reading<seq<Value>>)
    ensures r.Got? ==> |r.rest| < |s|
    decreases |s|, 1
  {
    match ReadValue(s)
    case Got(v, rest) =>
      if Begins(rest, ']') then Got([v], rest[1..])
      else if Begins(rest, ',') then
        match ReadElements(rest[1..])
        case Got(items, after) => Got([v] + items, after)
        case Bad => Bad
      else Bad
    case Bad => Bad
  }

  /** Members between commas, up to the closing brace. */
  function ReadMembers(s: JsString): (r: Reading<seq<Field>>)
    ensures r.Got? ==> |r.rest| < |s|
    decreases |s|, 2
  {
    match ReadMember(s)
    case Got(f, rest) =>
      if Begins(rest, '}') then Got([f], rest[1..])
      else if Begins(rest, ',') then
        match ReadMembers(rest[1..])
        case Got(fields, after) => Got([f] + fields, after)
        case Bad => Bad
      else Bad
    case Bad => Bad
  }

  function ReadMember(s: JsString): (r: Reading<Field>)
    ensures r.Got? ==> |r.rest| < |s|
    decreases |s|, 1
  {
    if !Begins(s, '"') then Bad
    else match ReadChars(s[1..])
      case Got(key, rest) =>
        if !Begins(rest, ':') then Bad
        else (match ReadValue(rest[1..]) case Got(v, after) => Got(Field(key, v), after) case Bad => Bad)
      case Bad => Bad
  }

  // ---- strings

  /** The characters up to the closing quotation mark. */
  function ReadChars(s: JsString): (r: Reading<JsString>)
    ensures r.Got? ==> |r.rest| < |s|
    decreases |s|
  {
    match ReadChar(s)
    case Bad => if Begins(s, '"') then Got([], s[1..]) else Bad
    case Got(u, rest) => (match ReadChars(rest) case Got(text, after) => Got([u] + text, after) case Bad => Bad)
  }

  /** One character, plain or escaped; not the quotation mark. */
  function ReadChar(s: JsString): (r: Reading<Unit>)
    ensures r.Got? ==> |r.rest| < |s|
  {
    if s == [] || s[0] < 0x20 || s[0] == Code('"') then Bad
    else if s[0] != Code('\\') then Got(s[0], s[1..])
    else if |s| == 1 then Bad
    else if s[1] == Code('u') then
      if |s| >= 6 && HexValue(s[2]) < 16 && HexValue(s[3]) < 16 && HexValue(s[4]) < 16 && HexValue(s[5]) < 16 then
        Got(((HexValue(s[2]) * 16 + HexValue(s[3])) * 16 + HexValue(s[4])) * 16 + HexValue(s[5]), s[6..])
      else Bad
    else if Escaped(s[1]) >= 0 then Got(Escaped(s[1]), s[2..])
    else Bad
  }

  /** The value of a hexadecimal digit, or 16. */
  function HexValue(u: Unit): nat {
    if 0x30 <= u <= 0x39 then u - 0x30
    else if 0x61 <= u <= 0x66 then u - 0x61 + 10
    else if 0x41 <= u <= 0x46 then u - 0x41 + 10
    else 16
  }

  /** The character that a letter stands for after a backslash, or -1. */
  function Escaped(u: Unit): (r: int)
    ensures r < 0x80
  {
    if u == Code('"') || u == Code('\\') || u == Code('/') then u
    else if u == Code('b') then 8
    else if u == Code('f') then 12
    else if u == Code('n') then 10
    else if u == Code('r') then 13
    else if u == Code('t') then 9
    else -1
  }

  // ---- numbers

  /** How many digits the text begins with. */
  function DigitRun(s: JsString): (n: nat)
    ensures n <= |s|
    ensures forall i :: 0 <= i < n ==> 0x30 <= s[i] <= 0x39
  {
    if s == [] || !(0x30 <= s[0] <= 0x39) then 0 else 1 + DigitRun(s[1..])
  }

  /** The number 0.d1d2... * 10^point, as it is written. */
  datatype Decimal = Decimal(digits: JsString, point: int)

  function ReadNumber(s: JsString): (r: Reading<N.Number>)
    ensures r.Got? ==> |r.rest| < |s|
  {
    var negative := Begins(s, '-');
    match ReadDecimal(if negative then s[1..] else s)
    case Got(d, rest) => Got(NumberOf(negative, d.digits, d.point), rest)
    case Bad => Bad
  }

  function ReadDecimal(s: JsString): (r: Reading<Decimal>)
    ensures r.Got? ==> |r.rest| < |s|
  {
    var n := DigitRun(s);
    if n == 0 || (n > 1 && s[0] == Code('0')) then Bad else ReadRest(s[..n], s[n..])
  }

  function ReadRest(whole: JsString, s: JsString): (r: Reading<Decimal>)
    ensures r.Got? ==> |r.rest| <= |s|
  {
    match ReadFraction(s)
    case Bad => Bad
    case Got(fraction, rest) =>
      match ReadExponent(rest)
      case Bad => Bad
      case Got(e, after) => Got(Decimal(whole + fraction, |whole| + e), after)
  }

  function ReadFraction(s: JsString): (r: Reading<JsString>)
    ensures r.Got? ==> |r.rest| <= |s|
  {
    if !Begins(s, '.') then Got([], s)
    else
      var n := DigitRun(s[1..]);
      if n == 0 then Bad else Got(s[1..][..n], s[1..][n..])
  }

  function ReadExponent(s: JsString): (r: Reading<int>)
    ensures r.Got? ==> |r.rest| <= |s|
  {
    if Begins(s, 'e') || Begins(s, 'E') then ReadSigned(s[1..]) else Got(0, s)
  }

  function ReadSigned(s: JsString): (r: Reading<int>)
    ensures r.Got? ==> |r.rest| <= |s|
  {
    if Begins(s, '-') then (match ReadDigits(s[1..]) case Got(n, rest) => Got(-n, rest) case Bad => Bad)
    else ReadDigits(if Begins(s, '+') then s[1..] else s)
  }

  function ReadDigits(s: JsString): (r: Reading<int>)
    ensures r.Got? ==> |r.rest| <= |s|
  {
    var n := DigitRun(s);
    if n == 0 then Bad else Got(DigitsValue(s[..n]), s[n..])
  }

  function DigitsValue(d: JsString): (n: int)
    requires forall i :: 0 <= i < |d| ==> 0x30 <= d[i] <= 0x39
    ensures n >= 0
  {
    if d == [] then 0 else DigitsValue(d[..|d| - 1]) * 10 + (d[|d| - 1] - 0x30)
  }

  /** The number with that sign, in its shortest form. */
  function NumberOf(negative: bool, digits: JsString, point: int): N.Number {
    var lead := LeadingZeros(digits);
    if lead == |digits| then N.Zero(negative)
    else N.Finite(negative, WithoutTrailingZeros(digits[lead..]), point - lead)
  }

  function LeadingZeros(d: JsString): (n: nat)
    ensures n <= |d|
  {
    if d == [] || d[0] != Code('0') then 0 else 1 + LeadingZeros(d[1..])
  }

  function WithoutTrailingZeros(d: JsString): JsString {
    if d == [] || d[|d| - 1] != Code('0') then d else WithoutTrailingZeros(d[..|d| - 1])
  }

  /** A whole text. */
  function ReadText(s: JsString): Option<Value> {
    match ReadValue(s)
    case Got(v, rest) => if rest == [] then Some(v) else None
    case Bad => None
  }

  datatype Option<+T> = None | Some(value: T)
}
