/** What the passes of a scan compare: 32-bit words as integers or as singles. */
module ScanFilters {
  import opened Numerals

  datatype ScanKind = Int32 | Float32

  datatype FilterKind = Changed | Unchanged | Increased | Decreased

  /** The exponent of a single is not all ones. */
  predicate IsFinite(raw: U32) {
    raw / 0x80_0000 % 0x100 != 0xFF
  }

  function Pow2(n: nat): nat {
    if n == 0 then 1 else 2 * Pow2(n - 1)
  }

  /** The magnitude of a finite single in units of its least positive value: 24 bits of
      significand, scaled by the exponent, or a subnormal significand as it is. */
  function Magnitude(bits: nat): nat {
    var exponent, fraction := bits / 0x80_0000, bits % 0x80_0000;
    if exponent == 0 then fraction else (0x80_0000 + fraction) * Pow2(exponent - 1)
  }

  /** The exact value of a finite single in those units. */
  function SingleValue(raw: U32): int {
    if raw < 0x8000_0000 then Magnitude(raw) else 0 - Magnitude(raw - 0x8000_0000)
  }

  function Value(kind: ScanKind, raw: U32): int {
    if kind.Int32? then Signed(raw) else SingleValue(raw)
  }

  predicate Matches(kind: ScanKind, previous: U32, current: U32, filter: FilterKind) {
    match filter
    case Changed => previous != current
    case Unchanged => previous == current
    case Increased => Comparable(kind, previous, current) && Value(kind, current) > Value(kind, previous)
    case Decreased => Comparable(kind, previous, current) && Value(kind, current) < Value(kind, previous)
  }

  predicate Comparable(kind: ScanKind, previous: U32, current: U32) {
    kind.Int32? || (IsFinite(previous) && IsFinite(current))
  }

  /** A change is an increase or a decrease, never both, except between the two zeros. */
  lemma ChangedIffMoved(kind: ScanKind, previous: U32, current: U32)
    requires Comparable(kind, previous, current)
    ensures Matches(kind, previous, current, Changed) <==>
              || Matches(kind, previous, current, Increased)
              || Matches(kind, previous, current, Decreased)
              || (kind.Float32? && previous != current && previous % 0x8000_0000 == 0 && current % 0x8000_0000 == 0)
    ensures !(Matches(kind, previous, current, Increased) && Matches(kind, previous, current, Decreased))
    ensures Matches(kind, previous, current, Changed) != Matches(kind, previous, current, Unchanged)
  {
    if kind.Float32? {
      SameValue(previous, current);
    }
  }

  /** The word that holds an integer. */
  function Word32(v: int): U32
    requires -0x8000_0000 <= v < 0x8000_0000
  {
    v % 0x1_0000_0000
  }

  /** Integers have increased exactly if they are greater, and decreased if they are less. */
  lemma IntegersAreOrdered(v: int, w: int)
    requires -0x8000_0000 <= v < 0x8000_0000 && -0x8000_0000 <= w < 0x8000_0000
    ensures Matches(Int32, Word32(v), Word32(w), Increased) <==> v < w
    ensures Matches(Int32, Word32(v), Word32(w), Decreased) <==> w < v
    ensures Matches(Int32, Word32(v), Word32(w), Changed) <==> v != w
  {
    assert Signed(Word32(v)) == v && Signed(Word32(w)) == w;
  }

  /** The finite singles are those whose bits below the sign are below those of infinity. */
  lemma FiniteIff(raw: U32)
    ensures IsFinite(raw) <==> raw % 0x8000_0000 < 0x7F80_0000
  {
  }

  /** How a single is ordered among the finite ones, read off its bits: by them below the sign,
      reversed if it is set, and the two zeros alike. */
  function Order(raw: U32): int {
    if raw < 0x8000_0000 then raw else 0x8000_0000 - raw
  }

  /** Finite singles have increased exactly if they are greater, and decreased if they are less;
      with another neither is said. */
  lemma SinglesAreOrdered(a: U32, b: U32)
    ensures Matches(Float32, a, b, Increased) <==> IsFinite(a) && IsFinite(b) && Order(a) < Order(b)
    ensures Matches(Float32, a, b, Decreased) <==> IsFinite(a) && IsFinite(b) && Order(b) < Order(a)
    ensures Matches(Float32, a, b, Changed) <==> a != b
  {
    ValuesAreOrdered(a, b);
    ValuesAreOrdered(b, a);
  }

  lemma ValuesAreOrdered(a: U32, b: U32)
    ensures SingleValue(a) < SingleValue(b) <==> Order(a) < Order(b)
  {
    var x := if a < 0x8000_0000 then a else a - 0x8000_0000;
    var y := if b < 0x8000_0000 then b else b - 0x8000_0000;
    assert Magnitude(0) == 0;
    MagnitudeIsStrict(x, y);
    MagnitudeIsStrict(y, x);
    MagnitudeIsStrict(0, x);
    MagnitudeIsStrict(0, y);
  }

  lemma SameValue(a: U32, b: U32)
    ensures SingleValue(a) == SingleValue(b) <==> a == b || (a % 0x8000_0000 == 0 && b % 0x8000_0000 == 0)
  {
    var x := if a < 0x8000_0000 then a else a - 0x8000_0000;
    var y := if b < 0x8000_0000 then b else b - 0x8000_0000;
    assert x == a % 0x8000_0000 && y == b % 0x8000_0000 && Magnitude(0) == 0;
    MagnitudeIsStrict(x, y);
    MagnitudeIsStrict(y, x);
    MagnitudeIsStrict(0, x);
    MagnitudeIsStrict(0, y);
  }

  lemma Pow2Grows(m: nat, n: nat)
    requires m <= n
    ensures 1 <= Pow2(m) <= Pow2(n)
    decreases n
  {
    if n > m {
      Pow2Grows(m, n - 1);
    } else if n > 0 {
      Pow2Grows(m - 1, n - 1);
    }
  }

  /** Different bits below the sign have different magnitudes, in the same order. */
  lemma MagnitudeIsStrict(a: nat, b: nat)
    ensures a < b <==> Magnitude(a) < Magnitude(b)
  {
    if a < b {
      MagnitudeGrows(a, b);
    } else if b < a {
      MagnitudeGrows(b, a);
    }
  }

  lemma MagnitudeGrows(a: nat, b: nat)
    requires a < b
    ensures Magnitude(a) < Magnitude(b)
  {
    var m, n := a / 0x80_0000, b / 0x80_0000;
    if m == n {
      if m > 0 {
        Pow2Grows(m - 1, m - 1);
        Scale(0x80_0000 + a % 0x80_0000, 0x80_0000 + b % 0x80_0000, Pow2(m - 1));
      }
    } else {
      assert m < n;
      BelowNext(a);
      Pow2Grows(m, n - 1);
      assert 0x80_0000 * Pow2(m) <= 0x80_0000 * Pow2(n - 1) <= (0x80_0000 + b % 0x80_0000) * Pow2(n - 1);
    }
  }

  lemma Scale(x: nat, y: nat, factor: nat)
    requires x < y && factor > 0
    ensures x * factor < y * factor
  {
  }

  /** Every magnitude is below the next power. */
  lemma BelowNext(a: nat)
    ensures Magnitude(a) < 0x80_0000 * Pow2(a / 0x80_0000)
  {
    var m := a / 0x80_0000;
    if m > 0 {
      Pow2Grows(0, m - 1);
      Scale(0x80_0000 + a % 0x80_0000, 2 * 0x80_0000, Pow2(m - 1));
    }
  }
}
