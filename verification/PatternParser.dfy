/** The signature pattern language: its operation trees, its parser as a function on the
    text that remains, and the parser object whose cursor moves through the text. */
module PatternParser {
  import opened Wrappers
  import opened Numerals

  datatype Op =
    | Byte(value: Byte)
    | Skip(count: U32)
    | Save
    | ReadU(width: U32)
    | FollowRel32(sub: seq<Op>)

  datatype ParseError =
    | UnterminatedSubexpression
    | InvalidSkip
    | UnsupportedRead
    | OddHexDigit
    | UnsupportedToken(c: char)

  predicate IsSpace(c: char) {
    c == ' ' || '\t' as int <= c as int <= '\r' as int
  }

  function SkipSpaces(s: string): (rest: string)
    ensures |rest| <= |s|
    ensures rest != "" ==> !IsSpace(rest[0])
  {
    if s != "" && IsSpace(s[0]) then SkipSpaces(s[1..]) else s
  }

  /** The accumulation of `[N]`, in 32-bit arithmetic. */
  function Accumulate(n: U32, digit: char): U32
    requires IsDigit(digit)
  {
    (n * 10 + DigitOf(digit)) % 0x1_0000_0000
  }

  function ReadDigits(s: string, n: U32): (r: (U32, string))
    ensures |r.1| <= |s|
    ensures r.1 != "" ==> !IsDigit(r.1[0])
  {
    if s != "" && IsDigit(s[0]) then ReadDigits(s[1..], Accumulate(n, s[0])) else (n, s)
  }

  function ParseOp(s: string): (r: Result<(Op, string), ParseError>)
    requires s != ""
    ensures r.Ok? ==> |r.value.1| < |s|
    decreases |s|, 0
  {
    var c, s1 := s[0], s[1..];
    if c == '?' then Ok((Skip(1), s1))
    else if c == '\'' then Ok((Save, s1))
    else if c == '[' then
      var (n, s2) := ReadDigits(s1, 0);
      if |s2| == |s1| || s2 == "" || s2[0] != ']' then Err(InvalidSkip) else Ok((Skip(n), s2[1..]))
    else if c == 'u' then
      if s1 == "" || s1[0] !in {'1', '2', '4'} then Err(UnsupportedRead)
      else Ok((ReadU(DigitOf(s1[0])), s1[1..]))
    else if c == '$' then
      var s2 := SkipSpaces(s1);
      if s2 != "" && s2[0] == '{' then
        match ParseUntil(s2[1..], Some('}'))
        case Ok((sub, rest)) => Ok((FollowRel32(sub), rest))
        case Err(e) => Err(e)
      else Ok((FollowRel32([]), s2))
    else if IsHex(c) then
      var s2 := SkipSpaces(s1);
      if s2 == "" || !IsHex(s2[0]) then Err(OddHexDigit)
      else Ok((Op.Byte(HexByte(c, s2[0])), s2[1..]))
    else Err(UnsupportedToken(c))
  }

  /** Operations up to the terminator, or to the end of the text when there is none. */
  function ParseUntil(s: string, terminator: Option<char>): (r: Result<(seq<Op>, string), ParseError>)
    ensures r.Ok? ==> |r.value.1| <= |s|
    decreases |s|, 1
  {
    var t := SkipSpaces(s);
    if t == "" then (if terminator.Some? then Err(UnterminatedSubexpression) else Ok(([], t)))
    else if terminator == Some(t[0]) then Ok(([], t[1..]))
    else
      match ParseOp(t)
      case Err(e) => Err(e)
      case Ok((op, rest)) =>
        match ParseUntil(rest, terminator)
        case Err(e) => Err(e)
        case Ok((ops, rest')) => Ok(([op] + ops, rest'))
  }

  function Parse(text: string): Result<seq<Op>, ParseError> {
    match ParseUntil(text, None)
    case Ok((ops, _)) => Ok(ops)
    case Err(e) => Err(e)
  }

  /** The result of a parse that has already produced `out`. */
  ghost function Prepend(out: seq<Op>, r: Result<(seq<Op>, string), ParseError>):
    Result<(seq<Op>, string), ParseError>
  {
    match r
    case Ok((ops, rest)) => Ok((out + ops, rest))
    case Err(e) => Err(e)
  }

  lemma PrependNothing(r: Result<(seq<Op>, string), ParseError>)
    ensures Prepend([], r) == r
  {
    if r.Ok? {
      assert [] + r.value.0 == r.value.0;
    }
  }

  lemma PrependTwice(out: seq<Op>, op: Op, r: Result<(seq<Op>, string), ParseError>)
    ensures Prepend(out, Prepend([op], r)) == Prepend(out + [op], r)
  {
    if r.Ok? {
      assert out + ([op] + r.value.0) == out + [op] + r.value.0;
    }
  }

  class Parser {
    const text: string
    var pos: nat

    constructor (text: string)
      ensures this.text == text && pos == 0
    {
      this.text, pos := text, 0;
    }

    ghost function Rest(): string
      reads this
      requires pos <= |text|
    {
      text[pos..]
    }

    /** An error leaves the cursor where it was met. */
    method ParseOperations(terminator: Option<char>) returns (r: Result<seq<Op>, ParseError>)
      requires pos <= |text|
      modifies this`pos
      ensures old(pos) <= pos <= |text|
      ensures match ParseUntil(old(Rest()), terminator)
              case Ok((ops, rest)) => r == Ok(ops) && Rest() == rest
              case Err(e) => r == Err(e)
      decreases |text| - pos, 1
    {
      var out: seq<Op> := [];
      PrependNothing(ParseUntil(Rest(), terminator));
      while true
        invariant old(pos) <= pos <= |text|
        invariant ParseUntil(old(Rest()), terminator) == Prepend(out, ParseUntil(Rest(), terminator))
        decreases |text| - pos
      {
        ghost var before := ParseUntil(Rest(), terminator);
        SkipSpacesHere();
        if pos >= |text| {
          if terminator.Some? {
            return Err(UnterminatedSubexpression);
          }
          break;
        }
        if terminator == Some(text[pos]) {
          ghost var here := Rest();
          pos := pos + 1;
          assert Rest() == here[1..];
          break;
        }
        var op := ParseOperation();
        if op.Err? {
          return Err(op.error);
        }
        assert before == Prepend([op.value], ParseUntil(Rest(), terminator));
        PrependTwice(out, op.value, ParseUntil(Rest(), terminator));
        out := out + [op.value];
      }
      assert out + [] == out;
      return Ok(out);
    }

    /** One turn of the loop of `parse_until`, from a token's first character. */
    method ParseOperation() returns (r: Result<Op, ParseError>)
      requires pos < |text|
      modifies this`pos
      ensures old(pos) < pos <= |text|
      ensures match ParseOp(old(Rest()))
              case Ok((op, rest)) => r == Ok(op) && Rest() == rest
              case Err(e) => r == Err(e)
      decreases |text| - pos, 0
    {
      var c := text[pos];
      pos := pos + 1;
      assert Rest() == old(Rest())[1..];
      if c == '?' {
        return Ok(Skip(1));
      } else if c == '\'' {
        return Ok(Save);
      } else if c == '[' {
        r := ParseSkip();
      } else if c == 'u' {
        if pos >= |text| || (text[pos] != '1' && text[pos] != '2' && text[pos] != '4') {
          return Err(UnsupportedRead);
        }
        var n := DigitOf(text[pos]);
        Advance();
        return Ok(ReadU(n));
      } else if c == '$' {
        SkipSpacesHere();
        var sub := [];
        if pos < |text| && text[pos] == '{' {
          Advance();
          var r' := ParseOperations(Some('}'));
          if r'.Err? {
            return Err(r'.error);
          }
          sub := r'.value;
        }
        return Ok(FollowRel32(sub));
      } else if IsHex(c) {
        SkipSpacesHere();
        if pos >= |text| || !IsHex(text[pos]) {
          return Err(OddHexDigit);
        }
        var lo := text[pos];
        Advance();
        return Ok(Op.Byte(HexByte(c, lo)));
      } else {
        return Err(UnsupportedToken(c));
      }
    }

    method Advance()
      requires pos < |text|
      modifies this`pos
      ensures pos == old(pos) + 1 && Rest() == old(Rest())[1..]
    {
      pos := pos + 1;
      assert Rest() == old(Rest())[1..];
    }

    /** The `N]` of `[N]`. */
    method ParseSkip() returns (r: Result<Op, ParseError>)
      requires 0 < pos <= |text| && text[pos - 1] == '['
      modifies this`pos
      ensures old(pos) <= pos <= |text|
      ensures match ParseOp(old(text[pos - 1..]))
              case Ok((op, rest)) => r == Ok(op) && Rest() == rest
              case Err(e) => r == Err(e)
    {
      ghost var digits := Rest();
      assert text[pos - 1..][1..] == digits;
      var n: U32 := 0;
      var any := false;
      while pos < |text| && IsDigit(text[pos])
        invariant old(pos) <= pos <= |text| && any == (old(pos) < pos)
        invariant ReadDigits(digits, 0) == ReadDigits(Rest(), n)
        decreases |text| - pos
      {
        any := true;
        n := Accumulate(n, text[pos]);
        Advance();
      }
      if !any || pos >= |text| || text[pos] != ']' {
        return Err(InvalidSkip);
      }
      Advance();
      return Ok(Skip(n));
    }

    method SkipSpacesHere()
      requires pos <= |text|
      modifies this`pos
      ensures old(pos) <= pos <= |text| && Rest() == SkipSpaces(old(Rest()))
    {
      while pos < |text| && IsSpace(text[pos])
        invariant old(pos) <= pos <= |text| && SkipSpaces(Rest()) == SkipSpaces(old(Rest()))
        decreases |text| - pos
      {
        ghost var was := Rest();
        pos := pos + 1;
        assert Rest() == was[1..];
      }
    }
  }
}
