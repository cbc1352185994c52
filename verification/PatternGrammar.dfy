/** The grammar of the pattern language as derivations, and the proof that the parser
    accepts exactly the texts that have one, with the tree the derivation means. */
module PatternGrammar {
  import opened Wrappers
  import opened Numerals
  import opened PatternParser

  /** A token of a pattern with the spaces before it; `mid` and `close` are the spaces the
      language also allows inside a token. */
  datatype Token =
    | HexPair(gap: string, hi: char, mid: string, lo: char)
    | Question(gap: string)
    | Bracket(gap: string, digits: string)
    | Quote(gap: string)
    | Read(gap: string, width: char)
    | Dollar(gap: string, mid: string)
    | DollarBrace(gap: string, mid: string, sub: seq<Token>, close: string)

  predicate AllSpaces(s: string) {
    forall i | 0 <= i < |s| :: IsSpace(s[i])
  }

  predicate Valid(t: Token)
    decreases t
  {
    AllSpaces(t.gap) &&
    match t
    case HexPair(_, hi, mid, lo) => IsHex(hi) && AllSpaces(mid) && IsHex(lo)
    case Bracket(_, digits) => digits != "" && AllDigits(digits)
    case Read(_, width) => width in {'1', '2', '4'}
    case Dollar(_, mid) => AllSpaces(mid)
    case DollarBrace(_, mid, sub, close) => AllSpaces(mid) && AllValid(sub) && AllSpaces(close)
    case _ => true
  }

  predicate AllValid(ts: seq<Token>)
    decreases ts
  {
    ts == [] || (Valid(ts[0]) && AllValid(ts[1..]))
  }

  /** A token without the spaces before it. */
  function Bare(t: Token): string
    decreases t, 0
  {
    match t
    case HexPair(_, hi, mid, lo) => [hi] + mid + [lo]
    case Question(_) => "?"
    case Bracket(_, digits) => "[" + digits + "]"
    case Quote(_) => "'"
    case Read(_, width) => "u" + [width]
    case Dollar(_, mid) => "$" + mid
    case DollarBrace(_, mid, sub, close) => "$" + mid + "{" + Texts(sub) + close + "}"
  }

  function Texts(ts: seq<Token>): string
    decreases ts
  {
    if ts == [] then "" else ts[0].gap + Bare(ts[0]) + Texts(ts[1..])
  }

  function Meaning(t: Token): Op
    requires Valid(t)
    decreases t, 0
  {
    match t
    case HexPair(_, hi, _, lo) => Op.Byte(HexByte(hi, lo))
    case Question(_) => Skip(1)
    case Bracket(_, digits) => Skip(Number(digits))
    case Quote(_) => Save
    case Read(_, width) => ReadU(DigitOf(width))
    case Dollar(_, _) => FollowRel32([])
    case DollarBrace(_, _, sub, _) => FollowRel32(Meanings(sub))
  }

  /** The count in brackets wraps at 32 bits. */
  function Number(digits: string): U32
    requires AllDigits(digits)
  {
    ReadDigits(digits, 0).0
  }

  function Meanings(ts: seq<Token>): seq<Op>
    requires AllValid(ts)
    decreases ts
  {
    if ts == [] then [] else [Meaning(ts[0])] + Meanings(ts[1..])
  }

  // ---- spaces and digits ----

  lemma {:induction false} SkipGap(gap: string, s: string)
    requires AllSpaces(gap)
    ensures SkipSpaces(gap + s) == SkipSpaces(s)
  {
    if gap == "" {
      assert gap + s == s;
    } else {
      assert (gap + s)[1..] == gap[1..] + s;
      SkipGap(gap[1..], s);
    }
  }

  lemma SkipTwice(s: string)
    ensures SkipSpaces(SkipSpaces(s)) == SkipSpaces(s)
  {
  }

  lemma Prepended(s: string, g: string, rest: string) returns (gap: string)
    requires s != "" && IsSpace(s[0]) && AllSpaces(g) && s[1..] == g + rest
    ensures AllSpaces(gap) && s == gap + rest
  {
    gap := [s[0]] + g;
    assert s == [s[0]] + s[1..];
  }

  lemma {:induction false} GapOf(s: string) returns (gap: string)
    ensures AllSpaces(gap) && s == gap + SkipSpaces(s)
  {
    if s != "" && IsSpace(s[0]) {
      var g := GapOf(s[1..]);
      gap := Prepended(s, g, SkipSpaces(s[1..]));
    } else {
      gap := "";
    }
  }

  lemma {:induction false} ReadThrough(digits: string, rest: string, n: U32)
    requires AllDigits(digits) && (rest == "" || !IsDigit(rest[0]))
    ensures ReadDigits(digits + rest, n) == (ReadDigits(digits, n).0, rest)
  {
    if digits == "" {
      assert digits + rest == rest;
    } else {
      assert (digits + rest)[1..] == digits[1..] + rest;
      ReadThrough(digits[1..], rest, Accumulate(n, digits[0]));
    }
  }

  lemma {:induction false} DigitsOf(s: string, n: U32) returns (digits: string)
    ensures AllDigits(digits) && s == digits + ReadDigits(s, n).1
    ensures ReadDigits(s, n).0 == ReadDigits(digits, n).0
  {
    if s != "" && IsDigit(s[0]) {
      var d := DigitsOf(s[1..], Accumulate(n, s[0]));
      digits := [s[0]] + d;
      assert digits[1..] == d;
      assert s == [s[0]] + s[1..];
    } else {
      digits := "";
    }
  }

  /** The number in brackets is the numeral's value in 32-bit arithmetic. */
  lemma NumberIsValue(digits: string)
    requires AllDigits(digits)
    ensures Number(digits) == ValueOf(digits) % 0x1_0000_0000
  {
    assert ValueOf("") == 0 && "" + digits == digits;
    AccumulatedValue("", digits);
  }

  lemma {:induction false} AccumulatedValue(done: string, digits: string)
    requires AllDigits(done) && AllDigits(digits)
    ensures ReadDigits(digits, ValueOf(done) % 0x1_0000_0000).0 == ValueOf(done + digits) % 0x1_0000_0000
    decreases |digits|
  {
    if digits == "" {
      assert done + digits == done;
    } else {
      var next := done + [digits[0]];
      assert next[..|next| - 1] == done;
      assert next + digits[1..] == done + digits;
      WrapsOnce(ValueOf(done), DigitOf(digits[0]));
      AccumulatedValue(next, digits[1..]);
    }
  }

  lemma WrapsOnce(v: nat, d: nat)
    ensures ((v % 0x1_0000_0000) * 10 + d) % 0x1_0000_0000 == (10 * v + d) % 0x1_0000_0000
  {
    var q, r := v / 0x1_0000_0000, v % 0x1_0000_0000;
    assert 10 * v + d == (r * 10 + d) + (10 * q) * 0x1_0000_0000;
  }

  // ---- every derivation parses ----

  /** What may follow a list of tokens: its closing spaces and brace, or the end. */
  ghost predicate Closes(ws: string, rest: string, terminator: Option<char>) {
    AllSpaces(ws) && terminator in {None, Some('}')} && (terminator.None? ==> rest == "")
  }

  ghost function Tail(ws: string, rest: string, terminator: Option<char>): string {
    if terminator.None? then ws else ws + "}" + rest
  }

  lemma TailParses(ws: string, rest: string, terminator: Option<char>)
    requires Closes(ws, rest, terminator)
    ensures ParseUntil(Tail(ws, rest, terminator), terminator) == Ok(([], rest))
    ensures var t := SkipSpaces(Tail(ws, rest, terminator)); t == "" || t[0] != '{'
  {
    if terminator.None? {
      SkipGap(ws, "");
      assert ws + "" == ws;
    } else {
      SkipGap(ws, "}" + rest);
      assert ws + "}" + rest == ws + ("}" + rest);
    }
  }

  lemma BareStart(t: Token)
    requires Valid(t)
    ensures Bare(t) != "" && !IsSpace(Bare(t)[0]) && Bare(t)[0] != '{' && Bare(t)[0] != '}'
  {
  }

  /** The text of some tokens, its first spaces skipped, starts at the first token. */
  lemma FirstToken(ts: seq<Token>, tail: string)
    requires ts != [] && AllValid(ts)
    ensures SkipSpaces(Texts(ts) + tail) == Bare(ts[0]) + (Texts(ts[1..]) + tail)
  {
    var bare := Bare(ts[0]) + (Texts(ts[1..]) + tail);
    assert Texts(ts) + tail == ts[0].gap + bare;
    SkipGap(ts[0].gap, bare);
    BareStart(ts[0]);
    assert bare[0] == Bare(ts[0])[0];
  }

  lemma NoBraceNext(ts: seq<Token>, ws: string, rest: string, terminator: Option<char>)
    requires AllValid(ts) && Closes(ws, rest, terminator)
    ensures var t := SkipSpaces(Texts(ts) + Tail(ws, rest, terminator)); t == "" || t[0] != '{'
  {
    var tail := Tail(ws, rest, terminator);
    if ts == [] {
      assert Texts(ts) + tail == tail;
      TailParses(ws, rest, terminator);
    } else {
      FirstToken(ts, tail);
      BareStart(ts[0]);
    }
  }

  /** Parsing a derivation's text gives its meaning and leaves what follows it. */
  lemma {:induction false} DerivationParses(ts: seq<Token>, ws: string, rest: string, terminator: Option<char>)
    requires AllValid(ts) && Closes(ws, rest, terminator)
    ensures ParseUntil(Texts(ts) + Tail(ws, rest, terminator), terminator) == Ok((Meanings(ts), rest))
    decreases ts
  {
    var tail := Tail(ws, rest, terminator);
    if ts == [] {
      assert Texts(ts) + tail == tail;
      TailParses(ws, rest, terminator);
    } else {
      var more := Texts(ts[1..]) + tail;
      FirstToken(ts, tail);
      BareStart(ts[0]);
      NoBraceNext(ts[1..], ws, rest, terminator);
      TokenParses(ts[0], more);
      DerivationParses(ts[1..], ws, rest, terminator);
      SkipTwice(more);
    }
  }

  /** A token parses to its meaning; a bare `$` also consumes the spaces after it. */
  ghost predicate TokenRead(t: Token, more: string)
    requires Valid(t)
  {
    ParseOp(Bare(t) + more) == Ok((Meaning(t), if t.Dollar? then SkipSpaces(more) else more))
  }

  lemma {:induction false} TokenParses(t: Token, more: string)
    requires Valid(t)
    requires var next := SkipSpaces(more); next == "" || next[0] != '{'
    ensures TokenRead(t, more)
    decreases t, 1
  {
    match t
    case HexPair(_, hi, mid, lo) => HexPairParses(t, more);
    case Question(_) => assert (Bare(t) + more)[1..] == more;
    case Bracket(_, digits) => BracketParses(t, more);
    case Quote(_) => assert (Bare(t) + more)[1..] == more;
    case Read(_, width) => assert (Bare(t) + more)[1..] == [width] + more;
    case Dollar(_, mid) =>
      assert (Bare(t) + more)[1..] == mid + more;
      SkipGap(mid, more);
    case DollarBrace(_, mid, sub, close) =>
      DerivationParses(sub, close, more, Some('}'));
      DollarBraceParses(t, more);
  }

  lemma HexPairParses(t: Token, more: string)
    requires Valid(t) && t.HexPair?
    ensures TokenRead(t, more)
  {
    assert (Bare(t) + more)[1..] == t.mid + ([t.lo] + more);
    SkipGap(t.mid, [t.lo] + more);
    assert ([t.lo] + more)[1..] == more;
  }

  lemma BracketParses(t: Token, more: string)
    requires Valid(t) && t.Bracket?
    ensures TokenRead(t, more)
  {
    assert (Bare(t) + more)[1..] == t.digits + ("]" + more);
    ReadThrough(t.digits, "]" + more, 0);
    assert ("]" + more)[1..] == more;
  }

  lemma DollarBraceParses(t: Token, more: string)
    requires Valid(t) && t.DollarBrace?
    requires ParseUntil(Texts(t.sub) + Tail(t.close, more, Some('}')), Some('}')) == Ok((Meanings(t.sub), more))
    ensures TokenRead(t, more)
  {
    var inner := Texts(t.sub) + Tail(t.close, more, Some('}'));
    assert (Bare(t) + more)[1..] == t.mid + ("{" + inner);
    SkipGap(t.mid, "{" + inner);
    assert ("{" + inner)[1..] == inner;
  }

  // ---- every parse has a derivation ----

  /** `s` is `ts`, then what closes them; `ops` is what they mean. */
  ghost predicate Derives(ts: seq<Token>, ws: string, rest: string, terminator: Option<char>, s: string, ops: seq<Op>) {
    && AllValid(ts) && Closes(ws, rest, terminator)
    && s == Texts(ts) + Tail(ws, rest, terminator)
    && Meanings(ts) == ops
  }

  ghost predicate Tokenizes(t: Token, s: string, op: Op, rest: string) {
    Valid(t) && s == Bare(t) + rest && Meaning(t) == op
  }

  lemma {:induction false} ParseHasDerivation(s: string, terminator: Option<char>)
    returns (ts: seq<Token>, ws: string)
    requires terminator in {None, Some('}')} && ParseUntil(s, terminator).Ok?
    ensures Derives(ts, ws, ParseUntil(s, terminator).value.1, terminator, s, ParseUntil(s, terminator).value.0)
    decreases |s|, 1
  {
    var t := SkipSpaces(s);
    var gap := GapOf(s);
    if t == "" || terminator == Some(t[0]) {
      ts, ws := [], gap;
    } else {
      var (op, more) := ParseOp(t).value;
      var token := OpHasToken(t, gap);
      var ts', ws' := ParseHasDerivation(more, terminator);
      OneMoreToken(token, op, ts', ws', terminator, s, more);
      ts, ws := [token] + ts', ws';
    }
  }

  lemma OneMoreToken(t: Token, op: Op, ts: seq<Token>, ws: string, terminator: Option<char>, s: string, more: string)
    requires s == t.gap + SkipSpaces(s) && Tokenizes(t, SkipSpaces(s), op, more)
    requires ParseUntil(s, terminator).Ok? && SkipSpaces(s) != "" && terminator != Some(SkipSpaces(s)[0])
    requires ParseOp(SkipSpaces(s)) == Ok((op, more)) && ParseUntil(more, terminator).Ok?
    requires Derives(ts, ws, ParseUntil(more, terminator).value.1, terminator, more,
                     ParseUntil(more, terminator).value.0)
    ensures Derives([t] + ts, ws, ParseUntil(s, terminator).value.1, terminator, s, ParseUntil(s, terminator).value.0)
  {
    var (ops, rest) := ParseUntil(more, terminator).value;
    assert ParseUntil(s, terminator) == Ok(([op] + ops, rest));
    assert ([t] + ts)[1..] == ts;
    TextsFirst(t, ts, more, Tail(ws, rest, terminator));
  }

  lemma TextsFirst(t: Token, ts: seq<Token>, more: string, tail: string)
    requires more == Texts(ts) + tail
    ensures t.gap + (Bare(t) + more) == Texts([t] + ts) + tail
  {
    assert ([t] + ts)[1..] == ts;
  }

  lemma {:induction false} OpHasToken(s: string, gap: string) returns (t: Token)
    requires s != "" && ParseOp(s).Ok? && AllSpaces(gap)
    ensures t.gap == gap && Tokenizes(t, s, ParseOp(s).value.0, ParseOp(s).value.1)
    decreases |s|, 0
  {
    var c, s1 := s[0], s[1..];
    if c == '?' {
      t := Question(gap);
      assert s == [c] + s1;
    } else if c == '\'' {
      t := Quote(gap);
      assert s == [c] + s1;
    } else if c == '[' {
      t := SkipHasToken(s, gap);
    } else if c == 'u' {
      t := Read(gap, s1[0]);
      assert s == [c] + [s1[0]] + s1[1..];
    } else if c == '$' {
      var s2 := SkipSpaces(s1);
      var mid := GapOf(s1);
      if s2 != "" && s2[0] == '{' {
        var sub, close := ParseHasDerivation(s2[1..], Some('}'));
        t := SubHasToken(s, gap, mid, sub, close);
      } else {
        t := Dollar(gap, mid);
        assert s == [c] + mid + s2;
      }
    } else {
      t := HexHasToken(s, gap);
    }
  }

  lemma SkipHasToken(s: string, gap: string) returns (t: Token)
    requires s != "" && s[0] == '[' && ParseOp(s).Ok? && AllSpaces(gap)
    ensures t.gap == gap && Tokenizes(t, s, ParseOp(s).value.0, ParseOp(s).value.1)
  {
    var s1 := s[1..];
    var digits := DigitsOf(s1, 0);
    var s2 := ReadDigits(s1, 0).1;
    assert s == "[" + s1 && s2 == "]" + s2[1..];
    t := Bracket(gap, digits);
  }

  lemma HexHasToken(s: string, gap: string) returns (t: Token)
    requires s != "" && s[0] !in {'?', '\'', '[', 'u', '$'} && ParseOp(s).Ok? && AllSpaces(gap)
    ensures t.gap == gap && Tokenizes(t, s, ParseOp(s).value.0, ParseOp(s).value.1)
  {
    var s1 := s[1..];
    var mid := GapOf(s1);
    var s2 := SkipSpaces(s1);
    assert s == [s[0]] + s1 && s2 == [s2[0]] + s2[1..];
    t := HexPair(gap, s[0], mid, s2[0]);
  }

  lemma SubHasToken(s: string, gap: string, mid: string, sub: seq<Token>, close: string) returns (t: Token)
    requires s != "" && s[0] == '$' && ParseOp(s).Ok? && AllSpaces(gap) && AllSpaces(mid)
    requires s[1..] == mid + SkipSpaces(s[1..])
    requires var s2 := SkipSpaces(s[1..]);
             && s2 != "" && s2[0] == '{' && ParseUntil(s2[1..], Some('}')).Ok?
             && var (ops, rest) := ParseUntil(s2[1..], Some('}')).value;
                Derives(sub, close, rest, Some('}'), s2[1..], ops)
    ensures t.gap == gap && Tokenizes(t, s, ParseOp(s).value.0, ParseOp(s).value.1)
  {
    var s2 := SkipSpaces(s[1..]);
    var (ops, rest) := ParseUntil(s2[1..], Some('}')).value;
    assert s == "$" + (mid + ("{" + (Texts(sub) + (close + "}" + rest))));
    t := DollarBrace(gap, mid, sub, close);
    BracedText(mid, Texts(sub), close, rest);
  }

  lemma BracedText(mid: string, inner: string, close: string, rest: string)
    ensures "$" + (mid + ("{" + (inner + (close + "}" + rest)))) == "$" + mid + "{" + inner + close + "}" + rest
  {
  }

  // ---- the language, and the round trip ----

  /** `text` spells `ops`: some valid tokens, then spaces, read as `ops`. */
  ghost predicate Spells(text: string, ops: seq<Op>) {
    exists ts, ws :: AllValid(ts) && AllSpaces(ws) && text == Texts(ts) + ws && Meanings(ts) == ops
  }

  /** The parser accepts exactly the spellings, and every spelling has one meaning. */
  lemma ParsesIffSpelled(text: string, ops: seq<Op>)
    ensures Parse(text) == Ok(ops) <==> Spells(text, ops)
  {
    if Parse(text) == Ok(ops) {
      var ts, ws := ParseHasDerivation(text, None);
    }
    if Spells(text, ops) {
      var ts, ws :| AllValid(ts) && AllSpaces(ws) && text == Texts(ts) + ws && Meanings(ts) == ops;
      DerivationParses(ts, ws, "", None);
    }
  }

  /** The trees the language can express: reads are one, two or four bytes wide. */
  predicate WellFormed(op: Op)
    decreases op
  {
    match op
    case ReadU(width) => width in {1, 2, 4}
    case FollowRel32(sub) => AllWellFormed(sub)
    case _ => true
  }

  predicate AllWellFormed(ops: seq<Op>)
    decreases ops
  {
    ops == [] || (WellFormed(ops[0]) && AllWellFormed(ops[1..]))
  }

  /** One token per operation, each after one space. */
  function Printed(op: Op): Token
    requires WellFormed(op)
    decreases op, 0
  {
    match op
    case Byte(value) => HexPair(" ", HexChar(value / 16), "", HexChar(value % 16))
    case Skip(n) => if n == 1 then Question(" ") else Bracket(" ", Numeral(n))
    case Save => Quote(" ")
    case ReadU(width) => Read(" ", CharOf(width))
    case FollowRel32(sub) => if sub == [] then Dollar(" ", "") else DollarBrace(" ", "", AllPrinted(sub), "")
  }

  function AllPrinted(ops: seq<Op>): seq<Token>
    requires AllWellFormed(ops)
    decreases ops
  {
    if ops == [] then [] else [Printed(ops[0])] + AllPrinted(ops[1..])
  }

  function Print(ops: seq<Op>): string
    requires AllWellFormed(ops)
  {
    Texts(AllPrinted(ops))
  }

  lemma {:induction false} PrintedMeans(op: Op)
    requires WellFormed(op)
    ensures Valid(Printed(op)) && Meaning(Printed(op)) == op
    decreases op, 1
  {
    match op
    case Byte(value) => PrintedByteMeans(value);
    case Skip(n) => PrintedSkipMeans(n);
    case Save =>
    case ReadU(width) => PrintedReadMeans(width);
    case FollowRel32(sub) => AllPrintedMean(sub);
  }

  lemma PrintedByteMeans(value: Byte)
    ensures Valid(Printed(Op.Byte(value))) && Meaning(Printed(Op.Byte(value))) == Op.Byte(value)
  {
    assert HexByte(HexChar(value / 16), HexChar(value % 16)) == value;
  }

  lemma NumeralMeans(n: U32)
    ensures Number(Numeral(n)) == n
  {
    NumberIsValue(Numeral(n));
    NumeralValue(n);
  }

  lemma PrintedSkipMeans(n: U32)
    ensures Valid(Printed(Skip(n))) && Meaning(Printed(Skip(n))) == Skip(n)
  {
    if n != 1 {
      NumeralMeans(n);
    }
  }

  lemma PrintedReadMeans(width: U32)
    requires width in {1, 2, 4}
    ensures Valid(Printed(ReadU(width))) && Meaning(Printed(ReadU(width))) == ReadU(width)
  {
  }

  lemma {:induction false} AllPrintedMean(ops: seq<Op>)
    requires AllWellFormed(ops)
    ensures AllValid(AllPrinted(ops)) && Meanings(AllPrinted(ops)) == ops
    decreases ops
  {
    if ops != [] {
      PrintedMeans(ops[0]);
      AllPrintedMean(ops[1..]);
      assert AllPrinted(ops)[1..] == AllPrinted(ops[1..]);
      assert ops == [ops[0]] + ops[1..];
    }
  }

  /** Printing a tree, however deeply nested, and parsing the text gives the tree back. */
  lemma ParsePrinted(ops: seq<Op>)
    requires AllWellFormed(ops)
    ensures Parse(Print(ops)) == Ok(ops)
  {
    AllPrintedMean(ops);
    DerivationParses(AllPrinted(ops), "", "", None);
    assert Print(ops) + "" == Print(ops);
  }
}
