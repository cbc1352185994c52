/** Matching a pattern against an image: what it means for a pattern to hold at an
    address, the executor that follows a cursor, and the search for a unique match. */
module PatternScanner {
  import opened Wrappers
  import opened Numerals
  import opened PatternParser
  import opened PatternGrammar

  type Image = bytes: seq<Byte> | |bytes| < 0x1_0000_0000

  // ---- what a pattern says about an image ----

  /** The bytes an operation occupies, whatever the image holds. */
  function Width(op: Op): nat {
    match op
    case Byte(_) => 1
    case Skip(n) => n
    case Save => 0
    case ReadU(w) => w
    case FollowRel32(_) => 4
  }

  function Widths(ops: seq<Op>): nat {
    if ops == [] then 0 else Width(ops[0]) + Widths(ops[1..])
  }

  /** The little-endian value of some bytes. */
  function LittleEndian(bytes: seq<Byte>): nat {
    if bytes == [] then 0 else bytes[0] + 0x100 * LittleEndian(bytes[1..])
  }

  lemma {:induction false} LittleEndianBound(bytes: seq<Byte>)
    requires |bytes| <= 4
    ensures LittleEndian(bytes) < 0x1_0000_0000
  {
    if |bytes| == 1 {
    } else if |bytes| == 2 {
      assert LittleEndian(bytes[1..]) == bytes[1] + 0x100 * LittleEndian(bytes[1..][1..]);
    } else if |bytes| == 3 {
      assert LittleEndian(bytes[1..]) == bytes[1] + 0x100 * LittleEndian(bytes[1..][1..]);
      assert LittleEndian(bytes[1..][1..]) == bytes[2] + 0x100 * LittleEndian(bytes[1..][1..][1..]);
    } else if |bytes| == 4 {
      assert LittleEndian(bytes[1..]) == bytes[1] + 0x100 * LittleEndian(bytes[1..][1..]);
      assert LittleEndian(bytes[1..][1..]) == bytes[2] + 0x100 * LittleEndian(bytes[1..][1..][1..]);
      assert LittleEndian(bytes[1..][1..][1..]) == bytes[3] + 0x100 * LittleEndian(bytes[1..][1..][1..][1..]);
    }
  }

  function ReadAt(image: Image, at: nat, width: nat): (v: U32)
    requires at + width <= |image| && width <= 4
  {
    LittleEndianBound(image[at..at + width]);
    LittleEndian(image[at..at + width])
  }

  /** Where the jump at `at` goes. */
  function Target(image: Image, at: nat): int
    requires at + 4 <= |image|
  {
    at + 4 + Signed(ReadAt(image, at, 4))
  }

  /** Each operation holds where the widths before it put it; a jump's operations hold at
      its target, and do not move those that follow. */
  predicate OpHolds(op: Op, image: Image, at: nat)
    decreases op
  {
    match op
    case Byte(value) => at < |image| && image[at] == value
    case Save => true
    case FollowRel32(sub) =>
      at + 4 <= |image| && 0 <= Target(image, at) < |image| && Holds(sub, image, Target(image, at))
    case _ => at + Width(op) <= |image|
  }

  predicate Holds(ops: seq<Op>, image: Image, at: nat)
    decreases ops
  {
    forall i | 0 <= i < |ops| :: OpHolds(ops[i], image, at + Widths(ops[..i]))
  }

  lemma WidthsShift(ops: seq<Op>, i: nat)
    requires ops != [] && i < |ops|
    ensures Widths(ops[..i + 1]) == Width(ops[0]) + Widths(ops[1..][..i])
  {
    assert ops[..i + 1][1..] == ops[1..][..i];
  }

  lemma HoldsFirst(ops: seq<Op>, image: Image, at: nat)
    requires ops != []
    ensures Holds(ops, image, at)
            <==> OpHolds(ops[0], image, at) && Holds(ops[1..], image, at + Width(ops[0]))
  {
    if Holds(ops, image, at) {
      HoldsForward(ops, image, at);
    }
    if OpHolds(ops[0], image, at) && Holds(ops[1..], image, at + Width(ops[0])) {
      HoldsBackward(ops, image, at);
    }
  }

  lemma HoldsForward(ops: seq<Op>, image: Image, at: nat)
    requires ops != [] && Holds(ops, image, at)
    ensures OpHolds(ops[0], image, at) && Holds(ops[1..], image, at + Width(ops[0]))
  {
    assert OpHolds(ops[0], image, at + Widths(ops[..0]));
    var rest := ops[1..];
    forall i | 0 <= i < |rest| ensures OpHolds(rest[i], image, at + Width(ops[0]) + Widths(rest[..i])) {
      WidthsShift(ops, i);
      assert OpHolds(ops[i + 1], image, at + Widths(ops[..i + 1]));
    }
  }

  lemma HoldsBackward(ops: seq<Op>, image: Image, at: nat)
    requires ops != []
    requires OpHolds(ops[0], image, at) && Holds(ops[1..], image, at + Width(ops[0]))
    ensures Holds(ops, image, at)
  {
    var rest := ops[1..];
    forall i | 0 <= i < |ops| ensures OpHolds(ops[i], image, at + Widths(ops[..i])) {
      if i > 0 {
        WidthsShift(ops, i - 1);
        assert OpHolds(rest[i - 1], image, at + Width(ops[0]) + Widths(rest[..i - 1]));
      }
    }
  }

  /** What an operation records: its position, the value it reads, or what a jump's
      operations record at the target. */
  function OpCaptured(op: Op, image: Image, at: U32): seq<U32>
    requires WellFormed(op) && OpHolds(op, image, at)
    decreases op, 0
  {
    match op
    case Save => [at]
    case ReadU(w) => [ReadAt(image, at, w)]
    case FollowRel32(sub) => Captured(sub, image, Target(image, at))
    case _ => []
  }

  function Captured(ops: seq<Op>, image: Image, at: U32): seq<U32>
    requires AllWellFormed(ops) && Holds(ops, image, at)
    decreases ops
  {
    if ops == [] then []
    else
      HoldsFirst(ops, image, at);
      StaysInside(ops, image, at);
      OpCaptured(ops[0], image, at) + Captured(ops[1..], image, at + Width(ops[0]))
  }

  /** The operations after the first lie inside the address space. */
  lemma StaysInside(ops: seq<Op>, image: Image, at: U32)
    requires ops != [] && Holds(ops, image, at)
    ensures at + Width(ops[0]) < 0x1_0000_0000
    ensures at <= |image| ==> at + Width(ops[0]) <= |image|
  {
    HoldsFirst(ops, image, at);
  }

  /** How many values a pattern records, whatever the image holds. */
  function OpCount(op: Op): nat
    decreases op, 0
  {
    match op
    case Save => 1
    case ReadU(_) => 1
    case FollowRel32(sub) => Count(sub)
    case _ => 0
  }

  function Count(ops: seq<Op>): nat
    decreases ops
  {
    if ops == [] then 0 else OpCount(ops[0]) + Count(ops[1..])
  }

  lemma {:induction false} CapturedCount(ops: seq<Op>, image: Image, at: U32)
    requires AllWellFormed(ops) && Holds(ops, image, at)
    ensures |Captured(ops, image, at)| == Count(ops)
    decreases ops
  {
    if ops != [] {
      HoldsFirst(ops, image, at);
      assert OpHolds(ops[0], image, at);
      if ops[0].FollowRel32? {
        CapturedCount(ops[0].sub, image, Target(image, at));
      }
      if |ops| > 1 {
        StaysInside(ops, image, at);
        CapturedCount(ops[1..], image, at + Width(ops[0]));
      } else {
        assert Count(ops[1..]) == 0;
      }
    }
  }

  // ---- the executor ----

  class Scanner {
    const image: Image

    constructor (image: Image)
      ensures this.image == image
    {
      this.image := image;
    }

    /** Runs the operations from `cursor`, which advances, adding to `saves`; the source
        passes both by reference. After a failure neither is used. */
    method Execute(ops: seq<Op>, cursor: U32, saves: seq<U32>) returns (ok: bool, end: U32, saved: seq<U32>)
      requires AllWellFormed(ops)
      ensures ok == Holds(ops, image, cursor)
      ensures ok ==> end == cursor + Widths(ops) && saved == saves + Captured(ops, image, cursor)
      decreases ops
    {
      end, saved := cursor, saves;
      var i := 0;
      NothingDone(ops, image, cursor, saves);
      while i < |ops|
        invariant 0 <= i <= |ops| && AllWellFormed(ops[i..])
        invariant Progress(ops, image, cursor, saves, i, end, saved)
      {
        RestIsWellFormed(ops, i);
        var opOk, opEnd, opSaved := ExecuteOne(ops[i], end, saved);
        if !opOk {
          OneFailed(ops, image, cursor, saves, i, end, saved);
          return false, end, saved;
        }
        OneMoreDone(ops, image, cursor, saves, i, end, saved, opEnd, opSaved);
        end, saved := opEnd, opSaved;
        i := i + 1;
      }
      AllDone(ops, image, cursor, saves, end, saved);
      return true, end, saved;
    }

    /** One turn of the loop of `execute`. */
    method ExecuteOne(op: Op, cursor: U32, saves: seq<U32>) returns (ok: bool, end: U32, saved: seq<U32>)
      requires WellFormed(op)
      ensures ok == OpHolds(op, image, cursor)
      ensures ok ==> end == cursor + Width(op) && saved == saves + OpCaptured(op, image, cursor)
      decreases op
    {
      end, saved := cursor, saves;
      match op {
        case Byte(value) =>
          if cursor >= |image| || image[cursor] != value {
            return false, end, saved;
          }
          end := cursor + 1;
        case Skip(n) =>
          if cursor + n > |image| {
            return false, end, saved;
          }
          end := cursor + n;
        case Save =>
          saved := saves + [cursor];
        case ReadU(width) =>
          if cursor + width > |image| {
            return false, end, saved;
          }
          saved := saves + [ReadAt(image, cursor, width)];
          end := cursor + width;
        case FollowRel32(sub) =>
          if cursor + 4 > |image| {
            return false, end, saved;
          }
          var target := cursor + 4 + Signed(ReadAt(image, cursor, 4));
          if target < 0 || target >= |image| {
            return false, end, saved;
          }
          if sub != [] {
            var subOk, _, subSaved := Execute(sub, target, saves);
            if !subOk {
              return false, end, saved;
            }
            saved := subSaved;
          }
          end := cursor + 4;
      }
      return true, end, saved;
    }

    /** Searches the starts in `[begin, end)` for the only one where the pattern holds. */
    method FindUniqueCode(begin: U32, end: U32, ops: seq<Op>) returns (found: Option<seq<U32>>)
      requires AllWellFormed(ops)
      ensures found.Some? ==> begin < end <= |image| && Records(ops, image, begin, end, found.value)
      ensures found.None? ==> end > |image| || forall at: U32 :: !OnlyMatch(ops, image, begin, end, at)
    {
      if begin >= end || end > |image| {
        return None;
      }
      found := None;
      var literal := FirstLiteral(ops);
      var start := begin;
      while start < end
        invariant begin <= start <= end
        invariant found.None? ==> forall at: U32 | begin <= at < start :: !Holds(ops, image, at)
        invariant found.Some? ==> Records(ops, image, begin, start, found.value)
      {
        if literal.Some? && image[start] != literal.value {
          LiteralIsNecessary(ops, image, start, literal.value);
        } else {
          var ok, _, saves := Execute(ops, start, [start]);
          if ok {
            if found.Some? {
              TwoMatches(ops, image, begin, end, found.value[0], start);
              return None;
            }
            found := Some(saves);
            FirstMatch(ops, image, begin, start, saves);
          }
        }
        start := start + 1;
      }
    }
  }

  /** The byte a match must start with, if the pattern decides it. */
  method FirstLiteral(ops: seq<Op>) returns (literal: Option<Byte>)
    ensures literal == LeadingByte(ops)
  {
    var i := 0;
    while i < |ops|
      invariant 0 <= i <= |ops| && LeadingByte(ops) == LeadingByte(ops[i..])
    {
      assert ops[i..][1..] == ops[i + 1..];
      if ops[i].Byte? {
        return Some(ops[i].value);
      }
      if ops[i].Skip? || ops[i].ReadU? || ops[i].FollowRel32? {
        return None;
      }
      i := i + 1;
    }
    return None;
  }

  function LeadingByte(ops: seq<Op>): Option<Byte> {
    if ops == [] then None
    else if ops[0].Byte? then Some(ops[0].value)
    else if ops[0].Save? then LeadingByte(ops[1..])
    else None
  }

  /** The prefilter loses nothing: a match starts with the literal. */
  lemma {:induction false} LiteralIsNecessary(ops: seq<Op>, image: Image, at: nat, literal: Byte)
    requires LeadingByte(ops) == Some(literal) && at < |image| && image[at] != literal
    ensures !Holds(ops, image, at)
  {
    HoldsFirst(ops, image, at);
    if ops[0].Save? {
      LiteralIsNecessary(ops[1..], image, at, literal);
    }
  }

  /** `at` is the one start in the range where the pattern holds. */
  ghost predicate OnlyMatch(ops: seq<Op>, image: Image, begin: nat, end: nat, at: U32) {
    && begin <= at < end && Holds(ops, image, at)
    && forall other: U32 | begin <= other < end && Holds(ops, image, other) :: other == at
  }

  /** `saves` is the start of the one match in the range, followed by what it records. */
  ghost predicate Records(ops: seq<Op>, image: Image, begin: nat, end: nat, saves: seq<U32>)
    requires AllWellFormed(ops)
  {
    && saves != [] && OnlyMatch(ops, image, begin, end, saves[0])
    && saves == [saves[0]] + Captured(ops, image, saves[0])
  }

  lemma FirstMatch(ops: seq<Op>, image: Image, begin: nat, at: U32, saves: seq<U32>)
    requires AllWellFormed(ops) && begin <= at && Holds(ops, image, at)
    requires saves == [at] + Captured(ops, image, at)
    requires forall other: U32 | begin <= other < at :: !Holds(ops, image, other)
    ensures Records(ops, image, begin, at + 1, saves)
  {
    assert saves[0] == at;
  }

  lemma TwoMatches(ops: seq<Op>, image: Image, begin: nat, end: nat, one: U32, other: U32)
    requires begin <= one < other < end && Holds(ops, image, one) && Holds(ops, image, other)
    ensures forall at: U32 :: !OnlyMatch(ops, image, begin, end, at)
  {
  }

  /** `i` operations are done: the pattern holds if and only if the rest holds here, and
      then what has been saved is all but what the rest records. */
  ghost predicate Progress(ops: seq<Op>, image: Image, start: U32, saves: seq<U32>, i: nat, cursor: U32,
                           saved: seq<U32>)
    requires i <= |ops| && AllWellFormed(ops) && AllWellFormed(ops[i..])
  {
    && cursor == start + Widths(ops[..i])
    && (Holds(ops, image, start) <==> Holds(ops[i..], image, cursor))
    && (Holds(ops, image, start) ==>
          saved + Captured(ops[i..], image, cursor) == saves + Captured(ops, image, start))
  }

  lemma NothingDone(ops: seq<Op>, image: Image, start: U32, saves: seq<U32>)
    requires AllWellFormed(ops)
    ensures AllWellFormed(ops[0..]) && Progress(ops, image, start, saves, 0, start, saves)
  {
    assert ops[0..] == ops && ops[..0] == [];
  }

  lemma {:induction false} WidthsAppend(ops: seq<Op>, op: Op)
    ensures Widths(ops + [op]) == Widths(ops) + Width(op)
  {
    if ops != [] {
      assert (ops + [op])[1..] == ops[1..] + [op];
      WidthsAppend(ops[1..], op);
    } else {
      assert (ops + [op])[1..] == [];
    }
  }

  lemma OneMoreDone(ops: seq<Op>, image: Image, start: U32, saves: seq<U32>, i: nat, cursor: U32, saved: seq<U32>,
                    cursor': U32, saved': seq<U32>)
    requires i < |ops| && AllWellFormed(ops) && AllWellFormed(ops[i..])
    requires Progress(ops, image, start, saves, i, cursor, saved)
    requires WellFormed(ops[i]) && OpHolds(ops[i], image, cursor)
    requires cursor' == cursor + Width(ops[i]) && saved' == saved + OpCaptured(ops[i], image, cursor)
    ensures AllWellFormed(ops[i + 1..]) && Progress(ops, image, start, saves, i + 1, cursor', saved')
  {
    Slices(ops, i);
    HoldsFirst(ops[i..], image, cursor);
    if Holds(ops, image, start) {
      RestRecords(ops[i..], image, cursor, saved, ops[i], ops[i + 1..], cursor', saved');
    }
  }

  lemma RestRecords(rest: seq<Op>, image: Image, cursor: U32, saved: seq<U32>,
                    first: Op, after: seq<Op>, cursor': U32, saved': seq<U32>)
    requires rest != [] && AllWellFormed(rest) && Holds(rest, image, cursor)
    requires first == rest[0] && after == rest[1..] && OpHolds(first, image, cursor)
    requires cursor' == cursor + Width(first) && saved' == saved + OpCaptured(first, image, cursor)
    ensures AllWellFormed(after) && Holds(after, image, cursor')
    ensures saved + Captured(rest, image, cursor) == saved' + Captured(after, image, cursor')
  {
    CapturedFirst(rest, image, cursor, first, after, cursor');
    Regroup(saved, OpCaptured(first, image, cursor), Captured(after, image, cursor'), saved',
            Captured(rest, image, cursor));
  }

  lemma Slices(ops: seq<Op>, i: nat)
    requires i < |ops|
    ensures ops[i..][0] == ops[i] && ops[i..][1..] == ops[i + 1..]
    ensures Widths(ops[..i + 1]) == Widths(ops[..i]) + Width(ops[i])
  {
    assert ops[..i + 1] == ops[..i] + [ops[i]];
    WidthsAppend(ops[..i], ops[i]);
  }

  lemma Regroup(a: seq<U32>, b: seq<U32>, c: seq<U32>, ab: seq<U32>, bc: seq<U32>)
    requires ab == a + b && bc == b + c
    ensures a + bc == ab + c
  {
  }

  lemma CapturedFirst(ops: seq<Op>, image: Image, at: U32, first: Op, after: seq<Op>, next: nat)
    requires ops != [] && AllWellFormed(ops) && Holds(ops, image, at)
    requires first == ops[0] && after == ops[1..] && next == at + Width(first)
    ensures OpHolds(first, image, at) && next < 0x1_0000_0000
    ensures AllWellFormed(after) && Holds(after, image, next)
    ensures Captured(ops, image, at) == OpCaptured(first, image, at) + Captured(after, image, next)
  {
    HoldsFirst(ops, image, at);
    StaysInside(ops, image, at);
  }

  lemma RestIsWellFormed(ops: seq<Op>, i: nat)
    requires i < |ops| && AllWellFormed(ops[i..])
    ensures WellFormed(ops[i])
  {
    assert ops[i..][0] == ops[i];
  }

  lemma OneFailed(ops: seq<Op>, image: Image, start: U32, saves: seq<U32>, i: nat, cursor: U32, saved: seq<U32>)
    requires i < |ops| && AllWellFormed(ops) && AllWellFormed(ops[i..])
    requires Progress(ops, image, start, saves, i, cursor, saved)
    requires !OpHolds(ops[i], image, cursor)
    ensures !Holds(ops, image, start)
  {
    HoldsFirst(ops[i..], image, cursor);
    assert ops[i..][0] == ops[i];
  }

  lemma AllDone(ops: seq<Op>, image: Image, start: U32, saves: seq<U32>, cursor: U32, saved: seq<U32>)
    requires AllWellFormed(ops) && AllWellFormed(ops[|ops|..])
    requires Progress(ops, image, start, saves, |ops|, cursor, saved)
    ensures Holds(ops, image, start) && cursor == start + Widths(ops)
    ensures saved == saves + Captured(ops, image, start)
  {
    assert ops[|ops|..] == [] && ops[..|ops|] == ops;
  }

  // ---- loosening a pattern ----

  /** `looser` is `op` with any of its literal bytes, at any depth, replaced by `?`. */
  predicate Loosens(op: Op, looser: Op)
    decreases op, 0
  {
    || op == looser
    || (op.Byte? && looser == Skip(1))
    || (op.FollowRel32? && looser.FollowRel32? && AllLoosen(op.sub, looser.sub))
  }

  predicate AllLoosen(ops: seq<Op>, looser: seq<Op>)
    decreases ops
  {
    && |ops| == |looser|
    && (ops == [] || (Loosens(ops[0], looser[0]) && AllLoosen(ops[1..], looser[1..])))
  }

  /** Replacing bytes by `?` only enlarges the set of matches, and changes neither where a
      match ends nor what it records. */
  lemma {:induction false} LooserMatchesMore(ops: seq<Op>, looser: seq<Op>, image: Image, at: U32)
    requires AllWellFormed(ops) && AllLoosen(ops, looser) && Holds(ops, image, at)
    ensures AllWellFormed(looser) && Holds(looser, image, at)
    ensures Widths(looser) == Widths(ops)
    ensures Captured(looser, image, at) == Captured(ops, image, at)
    decreases ops, 0
  {
    if ops != [] {
      CapturedFirst(ops, image, at, ops[0], ops[1..], at + Width(ops[0]));
      LooserOpMatchesMore(ops[0], looser[0], image, at);
      LooserMatchesMore(ops[1..], looser[1..], image, at + Width(ops[0]));
      HoldsBackward(looser, image, at);
      SamePieces(ops, looser, image, at);
    }
  }

  lemma SamePieces(ops: seq<Op>, other: seq<Op>, image: Image, at: U32)
    requires ops != [] && other != [] && AllWellFormed(ops) && AllWellFormed(other)
    requires Holds(ops, image, at) && Holds(other, image, at)
    requires OpHolds(ops[0], image, at) && OpHolds(other[0], image, at) && Width(other[0]) == Width(ops[0])
    requires at + Width(ops[0]) < 0x1_0000_0000
    requires Holds(ops[1..], image, at + Width(ops[0])) && Holds(other[1..], image, at + Width(ops[0]))
    requires OpCaptured(ops[0], image, at) == OpCaptured(other[0], image, at)
    requires Captured(ops[1..], image, at + Width(ops[0])) == Captured(other[1..], image, at + Width(ops[0]))
    ensures Captured(ops, image, at) == Captured(other, image, at)
  {
    CapturedFirst(ops, image, at, ops[0], ops[1..], at + Width(ops[0]));
    CapturedFirst(other, image, at, other[0], other[1..], at + Width(other[0]));
  }

  lemma {:induction false} LooserOpMatchesMore(op: Op, looser: Op, image: Image, at: U32)
    requires WellFormed(op) && Loosens(op, looser) && OpHolds(op, image, at)
    ensures WellFormed(looser) && OpHolds(looser, image, at) && Width(looser) == Width(op)
    ensures OpCaptured(looser, image, at) == OpCaptured(op, image, at)
    decreases op, 1
  {
    if op != looser && op.FollowRel32? {
      LooserMatchesMore(op.sub, looser.sub, image, Target(image, at));
    }
  }

  // ---- from text to match ----

  /** The parser only yields patterns the executor is defined on. */
  lemma {:induction false} ParsedIsWellFormed(ts: seq<Token>)
    requires AllValid(ts)
    ensures AllWellFormed(Meanings(ts))
    decreases ts
  {
    if ts != [] {
      ParsedTokenIsWellFormed(ts[0]);
      ParsedIsWellFormed(ts[1..]);
      assert Meanings(ts)[1..] == Meanings(ts[1..]);
    }
  }

  lemma {:induction false} ParsedTokenIsWellFormed(t: Token)
    requires Valid(t)
    ensures WellFormed(Meaning(t))
    decreases t, 1
  {
    if t.DollarBrace? {
      ParsedIsWellFormed(t.sub);
    }
  }

  lemma ParseIsWellFormed(text: string)
    requires Parse(text).Ok?
    ensures AllWellFormed(Parse(text).value)
  {
    ParsesIffSpelled(text, Parse(text).value);
    var ts, ws :| AllValid(ts) && AllSpaces(ws) && text == Texts(ts) + ws && Meanings(ts) == Parse(text).value;
    ParsedIsWellFormed(ts);
  }

  /** Whether a match offers a second save is decided by the pattern alone. */
  lemma MatchCount(ops: seq<Op>, image: Image, at: U32)
    requires AllWellFormed(ops) && Holds(ops, image, at)
    ensures |[at] + Captured(ops, image, at)| == 1 + Count(ops)
    ensures at <= |image| ==> at + Widths(ops) <= |image|
  {
    CapturedCount(ops, image, at);
    MatchEndsInside(ops, image, at);
  }

  lemma {:induction false} MatchEndsInside(ops: seq<Op>, image: Image, at: U32)
    requires Holds(ops, image, at)
    ensures at <= |image| ==> at + Widths(ops) <= |image|
    decreases ops
  {
    if ops != [] {
      HoldsFirst(ops, image, at);
      StaysInside(ops, image, at);
      MatchEndsInside(ops[1..], image, at + Width(ops[0]));
    }
  }
}
