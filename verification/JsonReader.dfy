/** A reader of JSON texts as sections 2 to 7 of RFC 8259 define them. A text and the strings
    in it are sequences of bytes; a character stands for the byte with its code. */
module JsonReader {
  import opened Wrappers
  import opened Numerals

  type Key = seq<Byte>

  /** A number keeps its spelling. */
  datatype Json =
    | Null
    | Bool(b: bool)
    | Number(lexeme: string)
    | Text(bytes: seq<Byte>)
    | Array(elements: seq<Json>)
    | Object(members: seq<(Key, Json)>)

  predicate IsWhitespace(c: char) {
    c == ' ' || c == '\t' || c == '\n' || c == '\r'
  }

  function SkipWhitespace(s: string): (rest: string)
    ensures |rest| <= |s|
  {
    if s != "" && IsWhitespace(s[0]) then SkipWhitespace(s[1..]) else s
  }

  // ---- strings ----

  /** A character outside quotes and backslashes, and not a control character. */
  predicate IsUnescaped(c: char) {
    ' ' as int <= c as int < 0x100 && c != '"' && c != '\\'
  }

  function ShortEscape(c: char): Option<Byte> {
    match c
    case '"' => Some(0x22)
    case '\\' => Some(0x5C)
    case '/' => Some(0x2F)
    case 'b' => Some(0x08)
    case 'f' => Some(0x0C)
    case 'n' => Some(0x0A)
    case 'r' => Some(0x0D)
    case 't' => Some(0x09)
    case _ => None
  }

  function FourHex(s: string): Option<nat> {
    if |s| < 4 || !IsHex(s[0]) || !IsHex(s[1]) || !IsHex(s[2]) || !IsHex(s[3]) then None
    else Some(HexByte(s[0], s[1]) * 0x100 + HexByte(s[2], s[3]))
  }

  /** The bytes of a character; surrogates are not read. */
  function Utf8(code: nat): Option<seq<Byte>>
    requires code < 0x1_0000
  {
    if code < 0x80 then Some([code])
    else if code < 0x800 then Some([0xC0 + code / 0x40, 0x80 + code % 0x40])
    else if 0xD800 <= code < 0xE000 then None
    else Some([0xE0 + code / 0x1000, 0x80 + code / 0x40 % 0x40, 0x80 + code % 0x40])
  }

  /** The rest of a string whose opening quote has been read. */
  function ReadString(s: string): (r: Option<(seq<Byte>, string)>)
    ensures r.Some? ==> |r.value.1| < |s|
    decreases |s|
  {
    if s == "" then None
    else if s[0] == '"' then Some(([], s[1..]))
    else if IsUnescaped(s[0]) then Before([s[0] as int], ReadString(s[1..]))
    else if s[0] != '\\' || |s| == 1 then None
    else if ShortEscape(s[1]).Some? then Before([ShortEscape(s[1]).value], ReadString(s[2..]))
    else if s[1] != 'u' || FourHex(s[2..]).None? then None
    else
      match Utf8(FourHex(s[2..]).value)
      case None => None
      case Some(bytes) => Before(bytes, ReadString(s[6..]))
  }

  function Before(bytes: seq<Byte>, r: Option<(seq<Byte>, string)>): Option<(seq<Byte>, string)> {
    match r
    case None => None
    case Some((more, rest)) => Some((bytes + more, rest))
  }

  // ---- numbers ----

  /** How many digits `s` starts with. */
  function DigitRun(s: string): (n: nat)
    ensures n <= |s|
  {
    if s == "" || !IsDigit(s[0]) then 0 else 1 + DigitRun(s[1..])
  }

  /** How long the integer part is, without leading zeros. */
  function IntegerPart(s: string): (n: nat)
    ensures n <= |s|
  {
    if s != "" && s[0] == '0' then 1 else DigitRun(s)
  }

  function Fraction(s: string): (n: Option<nat>)
    ensures n.Some? ==> n.value <= |s|
  {
    if s == "" || s[0] != '.' then Some(0)
    else if DigitRun(s[1..]) == 0 then None
    else Some(1 + DigitRun(s[1..]))
  }

  function Exponent(s: string): (n: Option<nat>)
    ensures n.Some? ==> n.value <= |s|
  {
    if s == "" || s[0] !in {'e', 'E'} then Some(0)
    else
      var sign := if |s| > 1 && s[1] in {'+', '-'} then 2 else 1;
      if DigitRun(s[sign..]) == 0 then None else Some(sign + DigitRun(s[sign..]))
  }

  function ReadNumber(s: string): (r: Option<(string, string)>)
    ensures r.Some? ==> |r.value.1| < |s|
  {
    var minus := if s != "" && s[0] == '-' then 1 else 0;
    var whole := IntegerPart(s[minus..]);
    if whole == 0 then None
    else
      match Fraction(s[minus + whole..])
      case None => None
      case Some(frac) =>
        match Exponent(s[minus + whole + frac..])
        case None => None
        case Some(exp) => Some((s[..minus + whole + frac + exp], s[minus + whole + frac + exp..]))
  }

  // ---- values ----

  function ReadWord(s: string, word: string, value: Json): (r: Option<(Json, string)>)
    requires word != ""
    ensures r.Some? ==> |r.value.1| < |s|
  {
    if word <= s then Some((value, s[|word|..])) else None
  }

  function ReadValue(s: string): (r: Option<(Json, string)>)
    ensures r.Some? ==> |r.value.1| < |s|
    decreases |s|, 3
  {
    var t := SkipWhitespace(s);
    if t == "" then None
    else if t[0] == '{' then
      match ReadObject(t[1..])
      case None => None
      case Some((members, rest)) => Some((Object(members), rest))
    else if t[0] == '[' then
      match ReadArray(t[1..])
      case None => None
      case Some((elements, rest)) => Some((Array(elements), rest))
    else if t[0] == '"' then
      match ReadString(t[1..])
      case None => None
      case Some((bytes, rest)) => Some((Text(bytes), rest))
    else if t[0] == 'n' then ReadWord(t, "null", Null)
    else if t[0] == 't' then ReadWord(t, "true", Bool(true))
    else if t[0] == 'f' then ReadWord(t, "false", Bool(false))
    else
      match ReadNumber(t)
      case None => None
      case Some((lexeme, rest)) => Some((Number(lexeme), rest))
  }

  /** The rest of an object whose opening brace has been read. */
  function ReadObject(s: string): (r: Option<(seq<(Key, Json)>, string)>)
    ensures r.Some? ==> |r.value.1| <= |s|
    decreases |s|, 2
  {
    var t := SkipWhitespace(s);
    if t != "" && t[0] == '}' then Some(([], t[1..])) else ReadMembers(t)
  }

  function ReadMembers(s: string): (r: Option<(seq<(Key, Json)>, string)>)
    ensures r.Some? ==> |r.value.1| <= |s|
    decreases |s|, 1
  {
    var t := SkipWhitespace(s);
    if t == "" || t[0] != '"' then None
    else
      match ReadString(t[1..])
      case None => None
      case Some((key, rest)) =>
        var u := SkipWhitespace(rest);
        if u == "" || u[0] != ':' then None
        else
          match ReadValue(u[1..])
          case None => None
          case Some((value, rest')) => Member(key, value, ReadTail(rest'))
  }

  /** What follows a member: a comma and more members, or the closing brace. */
  function ReadTail(s: string): (r: Option<(seq<(Key, Json)>, string)>)
    ensures r.Some? ==> |r.value.1| <= |s|
    decreases |s|, 2
  {
    var t := SkipWhitespace(s);
    if t == "" then None
    else if t[0] == '}' then Some(([], t[1..]))
    else if t[0] == ',' then ReadMembers(t[1..])
    else None
  }

  function Member(key: Key, value: Json, r: Option<(seq<(Key, Json)>, string)>): (m: Option<(seq<(Key, Json)>, string)>)
    ensures m.Some? <==> r.Some?
    ensures m.Some? ==> m.value.1 == r.value.1
  {
    match r
    case None => None
    case Some((members, rest)) => Some(([(key, value)] + members, rest))
  }

  function ReadArray(s: string): (r: Option<(seq<Json>, string)>)
    ensures r.Some? ==> |r.value.1| <= |s|
    decreases |s|, 5
  {
    var t := SkipWhitespace(s);
    if t != "" && t[0] == ']' then Some(([], t[1..])) else ReadElements(s)
  }

  function ReadElements(s: string): (r: Option<(seq<Json>, string)>)
    ensures r.Some? ==> |r.value.1| <= |s|
    decreases |s|, 4
  {
    match ReadValue(s)
    case None => None
    case Some((value, rest)) =>
      var t := SkipWhitespace(rest);
      if t == "" then None
      else if t[0] == ']' then Some(([value], t[1..]))
      else if t[0] != ',' then None
      else
        match ReadElements(t[1..])
        case None => None
        case Some((more, rest')) => Some(([value] + more, rest'))
  }

  /** A whole text: one value, and nothing but whitespace around it. */
  function ReadText(s: string): Option<Json> {
    match ReadValue(s)
    case None => None
    case Some((value, rest)) => if SkipWhitespace(rest) == "" then Some(value) else None
  }
}
