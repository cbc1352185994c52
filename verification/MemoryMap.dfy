/** The address space of a scanned process, as long as it does not change. */
module MemoryMap {
  import opened Wrappers
  import opened Numerals

  const CHUNK := 0x10_0000

  /** What the protection flags allow; a guard page allows nothing. */
  datatype Protection = NoAccess | ReadOnly | ReadWrite

  /** `known` is whether a query of the page succeeds; `allocation` tells apart whatever else
      ends a region, such as another allocation or a finer protection. */
  datatype Attributes =
    Attributes(known: bool, committed: bool, isPrivate: bool, protection: Protection, allocation: nat)

  const UNKNOWN := Attributes(false, false, false, NoAccess, 0)

  datatype Space = Space(pages: seq<Attributes>, content: nat -> Byte)

  /** A 32-bit address space; its last page is never mapped. */
  type Memory = m: Space | |m.pages| < 0x10_0000 witness Space([], _ => 0)

  function PageOf(a: nat): nat {
    a / 0x1000
  }

  function Page(m: Memory, p: nat): Attributes {
    if p < |m.pages| then m.pages[p] else UNKNOWN
  }

  /** The first page after `p` with other attributes. */
  function RunEnd(m: Memory, p: nat): (end: nat)
    ensures p < end && forall q | p <= q < end :: Page(m, q) == Page(m, p)
    ensures p < |m.pages| ==> end <= |m.pages|
    decreases |m.pages| - p
  {
    if p + 1 < |m.pages| && Page(m, p + 1) == Page(m, p) then RunEnd(m, p + 1) else p + 1
  }

  datatype Region = Region(base: U32, size: U32, attributes: Attributes)

  /** The answer to a query: the pages from that of the address on with the same attributes. */
  function Query(m: Memory, a: nat): Option<Region> {
    var p := PageOf(a);
    if p >= |m.pages| || !Page(m, p).known then None
    else Some(Region(p * 0x1000, (RunEnd(m, p) - p) * 0x1000, Page(m, p)))
  }

  predicate Readable(m: Memory, a: nat) {
    Page(m, PageOf(a)).committed && Page(m, PageOf(a)).protection != NoAccess
  }

  /** A read into a buffer of `CHUNK` bytes: all of it or nothing. */
  function Read(m: Memory, base: nat, n: nat): Option<seq<Byte>>
    requires n <= CHUNK
  {
    if forall a | base <= a < base + n :: Readable(m, a) then Some(seq(n, i requires 0 <= i < n => m.content(base + i)))
    else None
  }

  function Little(b0: nat, b1: nat, b2: nat, b3: nat): U32
    requires b0 < 0x100 && b1 < 0x100 && b2 < 0x100 && b3 < 0x100
  {
    b0 + 0x100 * b1 + 0x1_0000 * b2 + 0x100_0000 * b3
  }

  /** The little-endian word in a buffer. */
  function WordIn(bytes: seq<Byte>, at: nat): U32
    requires at + 4 <= |bytes|
  {
    Little(bytes[at], bytes[at + 1], bytes[at + 2], bytes[at + 3])
  }

  function Word(m: Memory, a: nat): U32 {
    Little(m.content(a), m.content(a + 1), m.content(a + 2), m.content(a + 3))
  }
}
