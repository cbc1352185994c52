/** Bytes laid out in an image by whoever wrote it, and what the scanner finds there: numbers
    read back, literal bytes match where they are, and a jump lands where it was aimed. */
module ByteLayout {
  import opened Wrappers
  import opened Numerals
  import opened PatternParser
  import opened PatternGrammar
  import opened PatternScanner

  // ---- numbers ----

  /** How many values fit some bytes. */
  function Capacity(width: nat): (n: nat)
    ensures n > 0
  {
    if width == 0 then 1 else 0x100 * Capacity(width - 1)
  }

  /** A number in some bytes, the least significant first. */
  function LittleBytes(v: nat, width: nat): (bytes: seq<Byte>)
    ensures |bytes| == width
  {
    if width == 0 then [] else [v % 0x100] + LittleBytes(v / 0x100, width - 1)
  }

  lemma {:induction false} LittleReadsBack(v: nat, width: nat)
    requires v < Capacity(width)
    ensures LittleEndian(LittleBytes(v, width)) == v
    decreases width
  {
    if width > 0 {
      assert LittleBytes(v, width)[1..] == LittleBytes(v / 0x100, width - 1);
      LittleReadsBack(v / 0x100, width - 1);
    }
  }

  /** The bytes are in the image at this address. */
  predicate Lies(image: Image, at: nat, bytes: seq<Byte>) {
    at + |bytes| <= |image| && image[at..at + |bytes|] == bytes
  }

  lemma NumberReadsBack(image: Image, at: nat, v: nat, width: nat)
    requires width <= 4 && v < Capacity(width) && Lies(image, at, LittleBytes(v, width))
    ensures ReadAt(image, at, width) == v
  {
    LittleReadsBack(v, width);
  }

  // ---- what a pattern finds ----

  function Literal(bytes: seq<Byte>): seq<Op> {
    seq(|bytes|, i requires 0 <= i < |bytes| => Op.Byte(bytes[i]))
  }

  lemma {:induction false} LiteralWidths(bytes: seq<Byte>, n: nat)
    requires n <= |bytes|
    ensures Widths(Literal(bytes)[..n]) == n
    decreases n
  {
    if n > 0 {
      LiteralWidths(bytes, n - 1);
      assert Literal(bytes)[..n] == Literal(bytes)[..n - 1] + [Op.Byte(bytes[n - 1])];
      WidthsAppend(Literal(bytes)[..n - 1], Op.Byte(bytes[n - 1]));
    }
  }

  /** Literal bytes hold exactly where they are. */
  lemma LiteralHoldsIff(bytes: seq<Byte>, image: Image, at: nat)
    requires bytes != []
    ensures Holds(Literal(bytes), image, at) <==> Lies(image, at, bytes)
  {
    if Holds(Literal(bytes), image, at) {
      forall i | 0 <= i < |bytes| ensures at + i < |image| && image[at + i] == bytes[i] {
        ByteHolds(bytes, image, at, i);
      }
      ByteHolds(bytes, image, at, |bytes| - 1);
    }
    if Lies(image, at, bytes) {
      forall i | 0 <= i < |bytes| ensures OpHolds(Literal(bytes)[i], image, at + Widths(Literal(bytes)[..i])) {
        ByteHolds(bytes, image, at, i);
        assert image[at..at + |bytes|][i] == image[at + i];
      }
    }
  }

  lemma ByteHolds(bytes: seq<Byte>, image: Image, at: nat, i: nat)
    requires i < |bytes|
    ensures OpHolds(Literal(bytes)[i], image, at + Widths(Literal(bytes)[..i]))
            <==> at + i < |image| && image[at + i] == bytes[i]
  {
    LiteralWidths(bytes, i);
  }

  /** A pattern in two parts holds where the first does and the second follows. */
  lemma HoldsInTwo(first: seq<Op>, second: seq<Op>, image: Image, at: nat)
    ensures Holds(first + second, image, at)
            <==> Holds(first, image, at) && Holds(second, image, at + Widths(first))
  {
    if Holds(first + second, image, at) {
      TwoFromWhole(first, second, image, at);
    }
    if Holds(first, image, at) && Holds(second, image, at + Widths(first)) {
      WholeFromTwo(first, second, image, at);
    }
  }

  lemma TwoFromWhole(first: seq<Op>, second: seq<Op>, image: Image, at: nat)
    requires Holds(first + second, image, at)
    ensures Holds(first, image, at) && Holds(second, image, at + Widths(first))
  {
    var whole := first + second;
    forall i | 0 <= i < |first| ensures OpHolds(first[i], image, at + Widths(first[..i])) {
      FirstPart(first, second, i);
      assert OpHolds(whole[i], image, at + Widths(whole[..i]));
    }
    forall i | 0 <= i < |second| ensures OpHolds(second[i], image, at + Widths(first) + Widths(second[..i])) {
      SecondPart(first, second, i);
      assert OpHolds(whole[|first| + i], image, at + Widths(whole[..|first| + i]));
    }
  }

  lemma WholeFromTwo(first: seq<Op>, second: seq<Op>, image: Image, at: nat)
    requires Holds(first, image, at) && Holds(second, image, at + Widths(first))
    ensures Holds(first + second, image, at)
  {
    var whole := first + second;
    forall i | 0 <= i < |whole| ensures OpHolds(whole[i], image, at + Widths(whole[..i])) {
      PartHolds(first, second, image, at, i);
    }
  }

  lemma PartHolds(first: seq<Op>, second: seq<Op>, image: Image, at: nat, i: nat)
    requires Holds(first, image, at) && Holds(second, image, at + Widths(first)) && i < |first + second|
    ensures OpHolds((first + second)[i], image, at + Widths((first + second)[..i]))
  {
    if i < |first| {
      FirstPart(first, second, i);
      assert OpHolds(first[i], image, at + Widths(first[..i]));
    } else {
      var k := i - |first|;
      SecondPart(first, second, k);
      assert OpHolds(second[k], image, at + Widths(first) + Widths(second[..k]));
    }
  }

  lemma FirstPart(first: seq<Op>, second: seq<Op>, i: nat)
    requires i < |first|
    ensures (first + second)[i] == first[i] && (first + second)[..i] == first[..i]
  {
  }

  lemma SecondPart(first: seq<Op>, second: seq<Op>, i: nat)
    requires i < |second|
    ensures (first + second)[|first| + i] == second[i]
    ensures Widths((first + second)[..|first| + i]) == Widths(first) + Widths(second[..i])
  {
    assert (first + second)[..|first| + i] == first + second[..i];
    WidthsAdd(first, second[..i]);
  }

  lemma {:induction false} WidthsAdd(xs: seq<Op>, ys: seq<Op>)
    ensures Widths(xs + ys) == Widths(xs) + Widths(ys)
    decreases |xs|
  {
    if xs == [] {
      assert xs + ys == ys;
    } else {
      assert (xs + ys)[1..] == xs[1..] + ys;
      WidthsAdd(xs[1..], ys);
    }
  }

  /** How many bytes of the image an operation passes. */
  function Passes(op: Op): nat {
    match op
    case Byte(_) => 1
    case Skip(n) => n
    case Save => 0
    case ReadU(w) => w
    case FollowRel32(_) => 4
  }

  /** What follows an operation follows it by as many bytes as it passes. */
  lemma OpThen(op: Op, rest: seq<Op>, image: Image, at: nat)
    ensures Holds([op] + rest, image, at) <==> OpHolds(op, image, at) && Holds(rest, image, at + Passes(op))
  {
    PassesWidth(op);
    assert ([op] + rest)[0] == op && ([op] + rest)[1..] == rest;
    HoldsFirst([op] + rest, image, at);
  }

  lemma PassesWidth(op: Op)
    ensures Passes(op) == Width(op)
  {
  }

  /** A read records the number that was written. */
  lemma ReadRecords(image: Image, at: U32, v: nat, width: nat)
    requires width in {1, 2, 4} && v < Capacity(width) && Lies(image, at, LittleBytes(v, width))
    ensures OpHolds(ReadU(width), image, at) && OpCaptured(ReadU(width), image, at) == [v]
  {
    NumberReadsBack(image, at, v, width);
  }

  /** The displacement of a jump from the bytes at `at` to `target`. */
  function Displacement(at: nat, target: nat): U32 {
    (target - (at + 4)) % 0x1_0000_0000
  }

  predicate InReach(at: nat, target: nat) {
    -0x8000_0000 <= target - (at + 4) < 0x8000_0000
  }

  lemma TargetIs(image: Image, at: nat, target: nat)
    requires InReach(at, target) && Lies(image, at, LittleBytes(Displacement(at, target), 4))
    ensures Target(image, at) == target
  {
    var d := Displacement(at, target);
    assert Capacity(4) == 0x1_0000_0000;
    NumberReadsBack(image, at, d, 4);
    assert Signed(d) == target - (at + 4);
  }

  /** A jump lands where its displacement was aimed: the nested operations are tried there, and
      what they record is what the jump records. */
  lemma JumpLands(image: Image, at: U32, target: U32, sub: seq<Op>)
    requires target < |image| && InReach(at, target) && Lies(image, at, LittleBytes(Displacement(at, target), 4))
    requires AllWellFormed(sub)
    ensures OpHolds(FollowRel32(sub), image, at) <==> Holds(sub, image, target)
    ensures Holds(sub, image, target) ==>
              OpHolds(FollowRel32(sub), image, at)
              && OpCaptured(FollowRel32(sub), image, at) == Captured(sub, image, target)
  {
    TargetIs(image, at, target);
  }

  /** A jump that was aimed outside the image does not hold. */
  lemma JumpMisses(image: Image, at: U32, displacement: int, sub: seq<Op>)
    requires -0x8000_0000 <= displacement < 0x8000_0000
    requires Lies(image, at, LittleBytes(displacement % 0x1_0000_0000, 4))
    requires !(0 <= at + 4 + displacement < |image|)
    ensures !OpHolds(FollowRel32(sub), image, at)
  {
    assert Capacity(4) == 0x1_0000_0000;
    NumberReadsBack(image, at, displacement % 0x1_0000_0000, 4);
    assert Signed(displacement % 0x1_0000_0000) == displacement;
  }

  const CALL: Byte := 0xE8

  /** The signature of a call, `E8 ${'}`: wherever a call was written it matches and records
      the address that is called. */
  lemma CallIsFound(image: Image, at: U32, target: U32)
    requires target < |image| && InReach(at + 1, target)
    requires Lies(image, at, [CALL] + LittleBytes(Displacement(at + 1, target), 4))
    ensures Parse("E8 ${'}") == Ok(CallPattern())
    ensures Holds(CallPattern(), image, at) && Captured(CallPattern(), image, at) == [target]
  {
    CallParses();
    CallLies(image, at, target);
    JumpLands(image, at + 1, target, [Save]);
    SaveRecords(image, target);
    CallRecords(image, at, target);
  }

  function CallPattern(): (ops: seq<Op>)
    ensures AllWellFormed(ops)
  {
    assert AllWellFormed([Save]) && AllWellFormed([FollowRel32([Save])]);
    [Op.Byte(CALL), FollowRel32([Save])]
  }

  lemma CallLies(image: Image, at: U32, target: U32)
    requires Lies(image, at, [CALL] + LittleBytes(Displacement(at + 1, target), 4))
    ensures image[at] == CALL && at + 1 < 0x1_0000_0000
    ensures Lies(image, at + 1, LittleBytes(Displacement(at + 1, target), 4))
  {
    var bytes := [CALL] + LittleBytes(Displacement(at + 1, target), 4);
    assert image[at..at + 5][0] == bytes[0];
    assert image[at + 1..at + 5] == image[at..at + 5][1..] == bytes[1..];
  }

  lemma SaveRecords(image: Image, at: U32)
    ensures Holds([Save], image, at) && Captured([Save], image, at) == [at]
  {
    assert [Save][1..] == [];
    assert Holds([Save], image, at);
    CapturedFirst([Save], image, at, Save, [], at);
  }

  lemma CallRecords(image: Image, at: U32, target: U32)
    requires at + 5 <= |image| && image[at] == CALL
    requires OpHolds(FollowRel32([Save]), image, at + 1)
    requires OpCaptured(FollowRel32([Save]), image, at + 1) == [target]
    ensures Holds(CallPattern(), image, at) && Captured(CallPattern(), image, at) == [target]
  {
    var jump := [FollowRel32([Save])];
    assert jump[1..] == [] && CallPattern()[1..] == jump;
    HoldsBackward(jump, image, at + 1);
    HoldsBackward(CallPattern(), image, at);
    CapturedFirst(jump, image, at + 1, jump[0], [], at + 5);
    CapturedFirst(CallPattern(), image, at, Op.Byte(CALL), jump, at + 1);
  }

  lemma CallParses()
    ensures Parse("E8 ${'}") == Ok(CallPattern())
  {
    var byte, jump := HexPair("", 'E', "", '8'), JumpToken();
    OneToken(byte);
    assert Bare(byte) == "E8" && Meaning(byte) == Op.Byte(CALL);
    TwoTokens(byte, jump);
    assert Texts([byte, jump]) + "" == "E8 ${'}";
    ParsesIffSpelled("E8 ${'}", CallPattern());
  }

  function JumpToken(): (t: Token)
    ensures Valid(t) && t.gap + Bare(t) == " ${'}" && Meaning(t) == FollowRel32([Save])
  {
    OneToken(Quote(""));
    DollarBrace(" ", "", [Quote("")], "")
  }

  lemma OneToken(t: Token)
    ensures AllValid([t]) <==> Valid(t)
    ensures Texts([t]) == t.gap + Bare(t)
    ensures Valid(t) ==> Meanings([t]) == [Meaning(t)]
  {
    assert [t][1..] == [];
  }

  lemma TwoTokens(t: Token, u: Token)
    requires Valid(t) && Valid(u)
    ensures AllValid([t, u]) && Texts([t, u]) == t.gap + Bare(t) + (u.gap + Bare(u))
    ensures Meanings([t, u]) == [Meaning(t), Meaning(u)]
  {
    OneToken(u);
    assert [t, u][1..] == [u];
  }
}
