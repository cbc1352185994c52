/** Writing a byte string as C++ string literals, and reading such literals as a compiler
    does (sections 5.2, 5.13.3 and 5.13.5 of ISO C++20). */
module CppString {
  import opened Wrappers
  import opened Numerals

  // ---- how a compiler reads adjacent string literals ----

  /** The simple escape sequences. */
  function Simple(c: char): Option<Byte> {
    match c
    case '\'' => Some(0x27)
    case '"' => Some(0x22)
    case '?' => Some(0x3F)
    case '\\' => Some(0x5C)
    case 'a' => Some(0x07)
    case 'b' => Some(0x08)
    case 'f' => Some(0x0C)
    case 'n' => Some(0x0A)
    case 'r' => Some(0x0D)
    case 't' => Some(0x09)
    case 'v' => Some(0x0B)
    case _ => None
  }

  /** All the hexadecimal digits at the start of `s`: an escape takes as many as it can. */
  function HexRun(s: string): (n: nat)
    ensures n <= |s|
  {
    if s == "" || !IsHex(s[0]) then 0 else 1 + HexRun(s[1..])
  }

  function HexNumber(digits: string): nat
    requires forall c | c in digits :: IsHex(c)
  {
    if digits == "" then 0 else 16 * HexNumber(digits[..|digits| - 1]) + HexValue(digits[|digits| - 1])
  }

  lemma {:induction false} HexRunIsHex(s: string)
    ensures forall c | c in s[..HexRun(s)] :: IsHex(c)
    decreases |s|
  {
    if s != "" && IsHex(s[0]) {
      HexRunIsHex(s[1..]);
      assert s[..HexRun(s)] == [s[0]] + s[1..][..HexRun(s[1..])];
    }
  }

  /** A character that stands for itself in a string literal. */
  predicate IsPlain(c: char) {
    ' ' <= c <= '~' && c != '"' && c != '\\'
  }

  /** The rest of a literal whose opening quote has been read, and what follows its closing
      quote. An octal escape or a universal character name is not read, and neither are
      characters outside ASCII. */
  function Body(s: string): Option<(seq<Byte>, string)>
    decreases |s|
  {
    if s == "" then None
    else if s[0] == '"' then Some(([], s[1..]))
    else if IsPlain(s[0]) then Before(s[0] as int, Body(s[1..]))
    else if s[0] != '\\' || |s| == 1 then None
    else if Simple(s[1]).Some? then Before(Simple(s[1]).value, Body(s[2..]))
    else if s[1] != 'x' then None
    else
      HexRunIsHex(s[2..]);
      var digits := s[2..2 + HexRun(s[2..])];
      if digits == "" || HexNumber(digits) >= 0x100 then None
      else Before(HexNumber(digits), Body(s[2 + |digits|..]))
  }

  function Before(b: Byte, r: Option<(seq<Byte>, string)>): Option<(seq<Byte>, string)> {
    match r
    case None => None
    case Some((bytes, rest)) => Some(([b] + bytes, rest))
  }

  lemma {:induction false} BodyShortens(s: string)
    requires Body(s).Some?
    ensures |Body(s).value.1| < |s|
    decreases |s|
  {
    if s[0] == '"' {
    } else if IsPlain(s[0]) {
      BodyShortens(s[1..]);
    } else if Simple(s[1]).Some? {
      BodyShortens(s[2..]);
    } else {
      HexRunIsHex(s[2..]);
      BodyShortens(s[2 + HexRun(s[2..])..]);
    }
  }

  /** Adjacent literals: each is read by itself, then they are concatenated. */
  function Literals(s: string): Option<seq<Byte>>
    decreases |s|
  {
    if s == "" || s[0] != '"' then None
    else
      match Body(s[1..])
      case None => None
      case Some((bytes, rest)) =>
        BodyShortens(s[1..]);
        if rest == "" then Some(bytes)
        else
          match Literals(rest)
          case None => None
          case Some(more) => Some(bytes + more)
  }

  // ---- the writer ----

  /** The bytes that the writer spells inside a literal shared with others. */
  predicate IsPrintable(b: Byte) {
    b in {0x0A, 0x0D, 0x09} || 0x20 <= b <= 0x7E
  }

  function Spelled(b: Byte): string
    requires IsPrintable(b)
  {
    if b == 0x22 then "\\\""
    else if b == 0x5C then "\\\\"
    else if b == 0x0A then "\\n"
    else if b == 0x0D then "\\r"
    else if b == 0x09 then "\\t"
    else [b as char]
  }

  function AllSpelled(bytes: seq<Byte>): string
    requires forall b | b in bytes :: IsPrintable(b)
  {
    if bytes == [] then "" else Spelled(bytes[0]) + AllSpelled(bytes[1..])
  }

  /** The escape of any byte. */
  function Escaped(b: Byte): string {
    "\\x" + [HexChar(b / 16), HexChar(b % 16)]
  }

  /** Every character of the output is printable ASCII. */
  predicate AllAscii(s: string) {
    forall i | 0 <= i < |s| :: ' ' <= s[i] <= '~'
  }

  /** What has been written so far, before the closing of the current literal: pieces that
      read as `done`. */
  ghost predicate Reads(text: string, done: seq<Byte>) {
    && AllAscii(text)
    && forall more: string :: ReadsBefore(text, done, more)
  }

  ghost predicate ReadsBefore(text: string, done: seq<Byte>, more: string) {
    LiteralsOr(text + more) == Joined(done, LiteralsOr(more))
  }

  /** The body of a literal, whatever follows the closing quote. */
  ghost predicate IsBody(body: string, bytes: seq<Byte>) {
    AllAscii(body) && forall more: string :: ClosedBefore(body, bytes, more)
  }

  ghost predicate ClosedBefore(body: string, bytes: seq<Byte>, more: string) {
    Body(body + ("\"" + more)) == Some((bytes, more))
  }

  function Quoted(body: string): string {
    "\"" + body + "\""
  }

  /** Literals, or nothing at all. */
  function LiteralsOr(s: string): Option<seq<Byte>> {
    if s == "" then Some([]) else Literals(s)
  }

  function Joined(done: seq<Byte>, r: Option<seq<Byte>>): Option<seq<Byte>> {
    match r
    case None => None
    case Some(bytes) => Some(done + bytes)
  }

  lemma NothingWritten()
    ensures Reads("", [])
  {
    forall more: string ensures ReadsBefore("", [], more) {
      assert "" + more == more;
      assert LiteralsOr(more).Some? ==> [] + LiteralsOr(more).value == LiteralsOr(more).value;
    }
  }

  /** A literal with these bytes can be appended. */
  lemma LiteralReads(text: string, done: seq<Byte>, body: string, bytes: seq<Byte>)
    requires Reads(text, done) && IsBody(body, bytes)
    ensures Reads(text + Quoted(body), done + bytes)
  {
    forall more: string ensures ReadsBefore(text + Quoted(body), done + bytes, more) {
      assert ReadsBefore(text, done, Quoted(body) + more) && ClosedBefore(body, bytes, more);
      LiteralReadsBefore(text, done, body, bytes, more);
    }
  }

  lemma LiteralReadsBefore(text: string, done: seq<Byte>, body: string, bytes: seq<Byte>, more: string)
    requires ReadsBefore(text, done, Quoted(body) + more) && ClosedBefore(body, bytes, more)
    ensures ReadsBefore(text + Quoted(body), done + bytes, more)
  {
    assert (text + Quoted(body)) + more == text + (Quoted(body) + more);
    LiteralFirst(body, bytes, more);
    JoinedTwice(done, bytes, LiteralsOr(more));
  }

  lemma JoinedTwice(done: seq<Byte>, bytes: seq<Byte>, r: Option<seq<Byte>>)
    ensures Joined(done, Joined(bytes, r)) == Joined(done + bytes, r)
  {
    if r.Some? {
      assert done + (bytes + r.value) == (done + bytes) + r.value;
    }
  }

  lemma LiteralFirst(body: string, bytes: seq<Byte>, more: string)
    requires ClosedBefore(body, bytes, more)
    ensures LiteralsOr(Quoted(body) + more) == Joined(bytes, LiteralsOr(more))
  {
    var s := Quoted(body) + more;
    assert s[1..] == body + ("\"" + more);
    assert more == "" ==> bytes + [] == bytes;
  }

  lemma {:induction false} SpelledBody(bytes: seq<Byte>, more: string)
    requires forall b | b in bytes :: IsPrintable(b)
    ensures ClosedBefore(AllSpelled(bytes), bytes, more)
    decreases |bytes|
  {
    if bytes == [] {
      assert AllSpelled(bytes) + ("\"" + more) == "\"" + more;
      assert ("\"" + more)[1..] == more;
    } else {
      var rest := AllSpelled(bytes[1..]) + ("\"" + more);
      assert AllSpelled(bytes) + ("\"" + more) == Spelled(bytes[0]) + rest;
      SpelledBody(bytes[1..], more);
      SpelledFirst(bytes[0], rest);
      assert [bytes[0]] + bytes[1..] == bytes;
    }
  }

  lemma SpelledFirst(b: Byte, rest: string)
    requires IsPrintable(b)
    ensures Body(Spelled(b) + rest) == Before(b, Body(rest))
  {
    assert (Spelled(b) + rest)[|Spelled(b)|..] == rest;
  }

  /** The digits of an escape end at the quote that follows them. */
  lemma EscapedBody(b: Byte, more: string)
    ensures ClosedBefore(Escaped(b), [b], more)
  {
    var hi, lo := HexChar(b / 16), HexChar(b % 16);
    var s := "\\x" + [hi, lo] + ("\"" + more);
    var digits := [hi, lo] + ("\"" + more);
    assert s[2..] == digits;
    assert digits[1..] == [lo] + ("\"" + more) && digits[1..][1..] == "\"" + more;
    assert HexRun(digits[1..][1..]) == 0 && HexRun(digits[1..]) == 1 && HexRun(digits) == 2;
    assert s[2..4] == [hi, lo] && s[4..] == "\"" + more;
    TwoDigits(hi, lo);
    assert ("\"" + more)[1..] == more;
    assert Body(s[4..]) == Some(([], more));
    assert [b] + [] == [b];
  }

  lemma TwoDigits(hi: char, lo: char)
    requires IsHex(hi) && IsHex(lo)
    ensures HexNumber([hi, lo]) == HexByte(hi, lo)
  {
    assert [hi, lo][..1] == [hi] && [hi][..0] == "";
    assert HexNumber([hi]) == HexValue(hi);
  }

  lemma {:induction false} SpelledAppend(bytes: seq<Byte>, b: Byte)
    requires IsPrintable(b) && forall b | b in bytes :: IsPrintable(b)
    ensures AllSpelled(bytes + [b]) == AllSpelled(bytes) + Spelled(b)
    decreases |bytes|
  {
    if bytes == [] {
      assert ([] + [b])[1..] == [];
    } else {
      assert (bytes + [b])[1..] == bytes[1..] + [b];
      SpelledAppend(bytes[1..], b);
    }
  }

  lemma SpelledOneAscii(b: Byte)
    requires IsPrintable(b)
    ensures AllAscii(Spelled(b)) && Spelled(b) != ""
  {
    var c := Spelled(b);
    forall i | 0 <= i < |c| ensures ' ' <= c[i] <= '~' {
      if |c| == 1 {
        assert i == 0 && c[0] as int == b;
      }
    }
  }

  lemma {:induction false} SpelledAscii(bytes: seq<Byte>)
    requires forall b | b in bytes :: IsPrintable(b)
    ensures AllAscii(AllSpelled(bytes)) && (bytes != [] ==> AllSpelled(bytes) != "")
    decreases |bytes|
  {
    if bytes != [] {
      SpelledAscii(bytes[1..]);
      SpelledOneAscii(bytes[0]);
    }
  }

  /** The `join` at the end. */
  function Join(segments: seq<string>): string {
    if segments == [] then "" else Join(segments[..|segments| - 1]) + segments[|segments| - 1]
  }

  /** Segments that read as `done`; there is text as soon as there is a segment. */
  ghost predicate Complete(segments: seq<string>, done: seq<Byte>) {
    Reads(Join(segments), done) && (segments != [] ==> Join(segments) != "")
  }

  lemma JoinAppend(segments: seq<string>, segment: string)
    ensures Join(segments + [segment]) == Join(segments) + segment
  {
    assert (segments + [segment])[..|segments|] == segments;
  }

  /** The literals written read back as the bytes given, whatever they are. */
  method CppString(value: seq<Byte>) returns (literal: string)
    ensures Literals(literal) == Some(value) && AllAscii(literal)
  {
    var segments: seq<string>, current := [], "";
    ghost var done, held: seq<Byte> := [], [];
    NothingWritten();
    var i := 0;
    while i < |value|
      invariant 0 <= i <= |value| && value[..i] == done + held
      invariant Writing(segments, current, done, held)
    {
      segments, current, done, held := WriteByte(value[i], segments, current, done, held);
      assert value[..i + 1] == value[..i] + [value[i]];
      i := i + 1;
    }
    assert value[..i] == value;
    segments, current := Flush(segments, current, done, held);
    ReadsAll(segments, value);
    return if segments == [] then "\"\"" else Join(segments);
  }

  /** The segments read as `done`, and the current literal spells `held`. */
  ghost predicate Writing(segments: seq<string>, current: string, done: seq<Byte>, held: seq<Byte>) {
    && (forall b | b in held :: IsPrintable(b))
    && Complete(segments, done) && current == AllSpelled(held)
  }

  /** One turn of the loop. */
  method WriteByte(byte: Byte, before: seq<string>, open: string, ghost read: seq<Byte>, ghost spelled: seq<Byte>)
    returns (segments: seq<string>, current: string, ghost done: seq<Byte>, ghost held: seq<Byte>)
    requires Writing(before, open, read, spelled)
    ensures Writing(segments, current, done, held) && done + held == read + spelled + [byte]
  {
    if IsPrintable(byte) {
      SpelledAppend(spelled, byte);
      segments, current, done, held := before, open + Spelled(byte), read, spelled + [byte];
    } else {
      segments, current := Flush(before, open, read, spelled);
      EscapedReads(segments, read + spelled, byte);
      segments := segments + [Quoted(Escaped(byte))];
      done, held := read + spelled + [byte], [];
    }
  }

  /** Closes the current literal, if anything is in it. */
  method Flush(segments: seq<string>, current: string, ghost done: seq<Byte>, ghost held: seq<Byte>)
    returns (flushed: seq<string>, cleared: string)
    requires Writing(segments, current, done, held)
    ensures Complete(flushed, done + held) && cleared == ""
  {
    SpelledAscii(held);
    if current == "" {
      assert done + held == done;
      return segments, "";
    }
    forall more: string ensures ClosedBefore(current, held, more) {
      SpelledBody(held, more);
    }
    SegmentReads(segments, done, current, held);
    return segments + [Quoted(current)], "";
  }

  lemma SegmentReads(segments: seq<string>, done: seq<Byte>, body: string, bytes: seq<Byte>)
    requires Complete(segments, done) && IsBody(body, bytes)
    ensures Complete(segments + [Quoted(body)], done + bytes)
  {
    LiteralReads(Join(segments), done, body, bytes);
    JoinAppend(segments, Quoted(body));
  }

  lemma EscapedReads(segments: seq<string>, done: seq<Byte>, b: Byte)
    requires Complete(segments, done)
    ensures Complete(segments + [Quoted(Escaped(b))], done + [b])
  {
    forall more: string ensures ClosedBefore(Escaped(b), [b], more) {
      EscapedBody(b, more);
    }
    SegmentReads(segments, done, Escaped(b), [b]);
  }

  lemma ReadsAll(segments: seq<string>, value: seq<Byte>)
    requires Complete(segments, value)
    ensures var text := if segments == [] then "\"\"" else Join(segments);
            Literals(text) == Some(value) && AllAscii(text)
  {
    var text := Join(segments);
    assert text + "" == text && value + [] == value;
    assert ReadsBefore(text, value, "");
    if segments == [] {
      assert "\"\""[1..] == "\"" && Body("\"") == Some(([], ""));
    }
  }

  /** Why an escape needs a literal of its own: with a hexadecimal digit after it in the
      same literal, the escape would take that digit too and no longer fit a byte. */
  lemma EscapeRunsOn(b: Byte, c: char, more: string)
    requires b >= 0x10 && IsHex(c)
    ensures Body(Escaped(b) + [c] + ("\"" + more)) == None
  {
    var hi, lo := HexChar(b / 16), HexChar(b % 16);
    var s := Escaped(b) + [c] + ("\"" + more);
    assert s[2..] == [hi, lo, c] + ("\"" + more) && s[2..5] == [hi, lo, c];
    ThreeDigits(hi, lo, c, "\"" + more);
  }

  lemma ThreeDigits(hi: char, lo: char, c: char, tail: string)
    requires IsHex(hi) && IsHex(lo) && IsHex(c) && tail != "" && !IsHex(tail[0])
    ensures HexRun([hi, lo, c] + tail) == 3
    ensures HexNumber([hi, lo, c]) == 16 * HexByte(hi, lo) + HexValue(c)
  {
    assert ([hi, lo, c] + tail)[1..] == [lo, c] + tail && ([lo, c] + tail)[1..] == [c] + tail;
    assert ([c] + tail)[1..] == tail;
    assert HexRun([c] + tail) == 1;
    assert HexRun([lo, c] + tail) == 1 + HexRun(([lo, c] + tail)[1..]);
    assert [hi, lo, c][..2] == [hi, lo];
    TwoDigits(hi, lo);
  }
}
