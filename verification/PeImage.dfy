/** Reading the headers of a portable executable far enough to know where its code is, and
    searching that code for a signature. */
module PeImage {
  import opened Wrappers
  import opened Numerals
  import opened PatternParser
  import opened PatternGrammar
  import opened PatternScanner

  const MIN_SIZE := 0x100
  const SIGNATURE := 0x4550
  const MAGIC_64 := 0x20B
  const MAGIC_32 := 0x10B

  predicate Readable(image: Image, at: nat, width: nat) {
    at + width <= |image|
  }

  function U16(image: Image, at: nat): nat
    requires Readable(image, at, 2)
  {
    ReadAt(image, at, 2)
  }

  function U32At(image: Image, at: nat): U32
    requires Readable(image, at, 4)
  {
    ReadAt(image, at, 4)
  }

  function U64(image: Image, at: nat): nat
    requires Readable(image, at, 8)
  {
    LittleEndian(image[at..at + 8])
  }

  // ---- the headers ----

  predicate HasNtHeader(image: Image) {
    && |image| >= MIN_SIZE && image[0] == 'M' as int && image[1] == 'Z' as int
    && FileHeader(image) + 20 <= |image|
    && Readable(image, U32At(image, 0x3C), 4) && U32At(image, U32At(image, 0x3C)) == SIGNATURE
  }

  /** The address of the file header: the source adds 4 in 32 bits. */
  function FileHeader(image: Image): U32
    requires |image| >= MIN_SIZE
  {
    (U32At(image, 0x3C) + 4) % 0x1_0000_0000
  }

  function Optional(image: Image): nat
    requires |image| >= MIN_SIZE
  {
    FileHeader(image) + 20
  }

  function SectionCount(image: Image): nat
    requires HasNtHeader(image)
  {
    U16(image, FileHeader(image) + 2)
  }

  function SectionTable(image: Image): nat
    requires HasNtHeader(image)
  {
    Optional(image) + U16(image, FileHeader(image) + 16)
  }

  /** Where the data directory is, if the optional header is one of the two known kinds and
      the fields used are all there. */
  function Directory(image: Image): Option<nat>
    requires HasNtHeader(image)
  {
    var opt := Optional(image);
    if SectionTable(image) > |image| || !Readable(image, opt, 2) then None
    else if U16(image, opt) == MAGIC_64 then
      if Readable(image, opt + 24, 8) && Readable(image, opt + 112, 8) then Some(opt + 112) else None
    else if U16(image, opt) == MAGIC_32 then
      if Readable(image, opt + 28, 4) && Readable(image, opt + 96, 8) then Some(opt + 96) else None
    else None
  }

  function PreferredBase(image: Image): nat
    requires HasNtHeader(image) && Directory(image).Some?
  {
    var opt := Optional(image);
    if U16(image, opt) == MAGIC_64 then U64(image, opt + 24) else U32At(image, opt + 28)
  }

  /** The address and size of the export directory. */
  function ExportEntry(image: Image): (U32, U32)
    requires HasNtHeader(image) && Directory(image).Some?
  {
    (U32At(image, Directory(image).value), U32At(image, Directory(image).value + 4))
  }

  /** Every header the source reads is there and is what it must be. */
  predicate IsPe(image: Image) {
    && HasNtHeader(image) && Directory(image).Some?
    && (SectionCount(image) > 0 ==> Header(SectionTable(image), SectionCount(image)) <= |image|)
  }

  // ---- the sections ----

  datatype Section = Section(code: bool, address: U32, virtualSize: U32, rawSize: U32)

  /** Where section header `i` starts; a header has 40 bytes. */
  function Header(table: nat, i: nat): nat {
    table + 40 * i
  }

  function SectionAt(image: Image, at: nat): Section
    requires Readable(image, at, 40)
  {
    Section((U32At(image, at + 36) / 0x20) % 2 == 1, U32At(image, at + 12), U32At(image, at + 8), U32At(image, at + 16))
  }

  function Sections(image: Image, table: nat, count: nat): seq<Section>
    requires count > 0 ==> Header(table, count) <= |image|
  {
    if count == 0 then []
    else Sections(image, table, count - 1) + [SectionAt(image, Header(table, count - 1))]
  }

  function AllSections(image: Image): seq<Section>
    requires IsPe(image)
  {
    Sections(image, SectionTable(image), SectionCount(image))
  }

  /** Where a section ends, clipped to the image. */
  function End(s: Section, size: U32): U32 {
    var end := s.address + if s.virtualSize > s.rawSize then s.virtualSize else s.rawSize;
    if end < size then end else size
  }

  datatype Range = Range(begin: U32, end: U32)

  /** The range built so far: a lower bound of 0 means that there is none yet. */
  function Widened(r: Range, s: Section, size: U32): Range {
    if !s.code then r
    else
      Range(if r.begin == 0 || s.address < r.begin then s.address else r.begin,
            if End(s, size) > r.end then End(s, size) else r.end)
  }

  function Extent(ss: seq<Section>, size: U32): Range {
    if ss == [] then Range(0, 0) else Widened(Extent(ss[..|ss| - 1], size), ss[|ss| - 1], size)
  }

  /** The range the search runs over: the whole image when nothing better is known. */
  function CodeRange(ss: seq<Section>, size: U32): Range {
    var r := Extent(ss, size);
    if r.begin == 0 || r.end <= r.begin then Range(0, size) else r
  }

  class PeFile {
    const image: Image
    var valid: bool
    var imageBase: nat
    var codeRange: Range
    var exportRva: U32
    var exportSize: U32

    constructor (image: Image)
      ensures this.image == image
      ensures valid == IsPe(image)
      ensures valid ==>
                && imageBase == PreferredBase(image)
                && (exportRva, exportSize) == ExportEntry(image)
                && codeRange == CodeRange(AllSections(image), |image|)
      ensures !valid ==> codeRange == Range(0, 0)
    {
      this.image := image;
      valid, imageBase, codeRange, exportRva, exportSize := false, 0, Range(0, 0), 0, 0;
      new;
      var header := FindFileHeader(image);
      if header.None? {
        return;
      }
      var found, base, rva, size := FindDirectory(image, header.value);
      if !found {
        return;
      }
      imageBase, exportRva, exportSize := base, rva, size;
      var r, whole := ReadSections(image, SectionTable(image), SectionCount(image));
      if !whole {
        return;
      }
      if r.begin == 0 || r.end <= r.begin {
        r := Range(0, |image|);
      }
      codeRange, valid := r, true;
    }
  }

  /** The checks up to the file header. */
  method FindFileHeader(image: Image) returns (header: Option<nat>)
    ensures header == if HasNtHeader(image) then Some(FileHeader(image)) else None
  {
    if |image| < MIN_SIZE || image[0] != 'M' as int || image[1] != 'Z' as int {
      return None;
    }
    var ntOff := U32At(image, 0x3C);
    var at: nat := (ntOff as int + 4) % 0x1_0000_0000;
    if at + 20 > |image| {
      return None;
    }
    if !Readable(image, ntOff, 4) || U32At(image, ntOff) != SIGNATURE {
      return None;
    }
    return Some(at);
  }

  /** The checks on the optional header, and what is read from it. */
  method FindDirectory(image: Image, header: nat) returns (found: bool, base: nat, rva: U32, size: U32)
    requires HasNtHeader(image) && header == FileHeader(image)
    ensures found == Directory(image).Some?
    ensures found ==> base == PreferredBase(image) && (rva, size) == ExportEntry(image)
  {
    var opt := header + 20;
    found, base, rva, size := false, 0, 0, 0;
    if opt + U16(image, header + 16) > |image| || !Readable(image, opt, 2) {
      return;
    }
    var magic, at := U16(image, opt), opt;
    if magic == MAGIC_64 {
      if !Readable(image, opt + 24, 8) {
        return;
      }
      base, at := U64(image, opt + 24), opt + 112;
    } else if magic == MAGIC_32 {
      if !Readable(image, opt + 28, 4) {
        return;
      }
      base, at := U32At(image, opt + 28), opt + 96;
    } else {
      return;
    }
    if !Readable(image, at, 4) || !Readable(image, at + 4, 4) {
      return;
    }
    found, rva, size := true, U32At(image, at), U32At(image, at + 4);
  }

  /** The section loop of the constructor; it gives up at a header that is not there. */
  method ReadSections(image: Image, table: nat, count: nat) returns (r: Range, whole: bool)
    ensures whole == (count > 0 ==> Header(table, count) <= |image|)
    ensures whole ==> r == Extent(Sections(image, table, count), |image|)
  {
    r := Range(0, 0);
    var i := 0;
    while i < count
      invariant 0 <= i <= count && (i > 0 ==> Header(table, i) <= |image|)
      invariant r == Extent(Sections(image, table, i), |image|)
    {
      if !Readable(image, Header(table, i), 40) {
        return r, false;
      }
      r := Widen(r, SectionAt(image, Header(table, i)), |image|);
      OneMoreSection(image, table, i);
      i := i + 1;
    }
    return r, true;
  }

  /** What one turn of the loop does to the two bounds. */
  method Widen(r: Range, s: Section, size: U32) returns (wider: Range)
    ensures wider == Widened(r, s, size)
  {
    var first, last := r.begin, r.end;
    if s.code {
      var span := if s.virtualSize > s.rawSize then s.virtualSize else s.rawSize;
      var end := if s.address + span < size then s.address + span else size;
      if first == 0 || s.address < first {
        first := s.address;
      }
      if end > last {
        last := end;
      }
    }
    wider := Range(first, last);
  }

  lemma OneMoreSection(image: Image, table: nat, i: nat)
    requires Header(table, i + 1) <= |image|
    ensures Extent(Sections(image, table, i + 1), |image|)
            == Widened(Extent(Sections(image, table, i), |image|), SectionAt(image, Header(table, i)), |image|)
  {
    assert Sections(image, table, i + 1)[..|Sections(image, table, i + 1)| - 1] == Sections(image, table, i);
  }

  // ---- what the range covers ----

  /** A section with code, and some of it inside the image. */
  predicate HasCode(s: Section, size: U32) {
    s.code && s.address < End(s, size)
  }

  predicate Covers(r: Range, s: Section, size: U32) {
    r.begin <= s.address && End(s, size) <= r.end
  }

  /** No clipped code section is left out of the range. */
  ghost predicate CoversAll(ss: seq<Section>, size: U32) {
    forall s | s in ss && HasCode(s, size) :: Covers(CodeRange(ss, size), s, size)
  }

  /** The range of a non-empty image is non-empty and inside it, whatever the headers say. */
  lemma RangeIsSearchable(ss: seq<Section>, size: U32)
    requires size > 0
    ensures CodeRange(ss, size).begin < CodeRange(ss, size).end <= size
  {
    ExtentEnds(ss, size);
  }

  lemma {:induction false} ExtentEnds(ss: seq<Section>, size: U32)
    ensures Extent(ss, size).end <= size
    ensures forall s | s in ss && s.code :: End(s, size) <= Extent(ss, size).end
    decreases |ss|
  {
    if ss != [] {
      ExtentEnds(ss[..|ss| - 1], size);
    }
  }

  /** The code sections after the last one at address 0, which reset the lower bound. */
  function AfterZero(ss: seq<Section>): seq<Section> {
    if ss == [] then []
    else
      var before, last := AfterZero(ss[..|ss| - 1]), ss[|ss| - 1];
      if !last.code then before else if last.address == 0 then [] else before + [last]
  }

  /** The lower bound found by the loop is the lowest address after the last section at
      address 0, and 0 if there is none. */
  lemma {:induction false} ExtentBegins(ss: seq<Section>, size: U32)
    ensures Extent(ss, size).begin == 0 <==> AfterZero(ss) == []
    ensures forall s | s in AfterZero(ss) :: s in ss && s.code && 0 < Extent(ss, size).begin <= s.address
    ensures AfterZero(ss) != [] ==> exists s :: s in AfterZero(ss) && s.address == Extent(ss, size).begin
    decreases |ss|
  {
    if ss != [] {
      var init, last := ss[..|ss| - 1], ss[|ss| - 1];
      ExtentBegins(init, size);
      if last.code && last.address != 0 {
        assert AfterZero(ss) == AfterZero(init) + [last];
        assert last in AfterZero(ss);
        if AfterZero(init) != [] {
          var s :| s in AfterZero(init) && s.address == Extent(init, size).begin;
          assert s in AfterZero(ss);
        }
      }
    }
  }

  /** With no code section at address 0 the range covers every clipped code section. */
  lemma CoversWithoutZero(ss: seq<Section>, size: U32)
    requires forall s | s in ss && s.code :: s.address != 0
    ensures CoversAll(ss, size)
  {
    forall s | s in ss && HasCode(s, size) ensures Covers(CodeRange(ss, size), s, size) {
      ExtentEnds(ss, size);
      ExtentBegins(ss, size);
      AllAfterZero(ss, s);
    }
  }

  lemma {:induction false} AllAfterZero(ss: seq<Section>, s: Section)
    requires forall t | t in ss && t.code :: t.address != 0
    requires s in ss && s.code
    ensures s in AfterZero(ss)
    decreases |ss|
  {
    if s != ss[|ss| - 1] {
      AllAfterZero(ss[..|ss| - 1], s);
    }
  }

  /** A range that covers the code sections contains every byte of each, whichever of its two
      sizes is the larger, as far as the image goes. */
  lemma CoversBytes(ss: seq<Section>, size: U32, s: Section, a: nat)
    requires CoversAll(ss, size) && s in ss && s.code
    requires s.address <= a < size && (a < s.address + s.virtualSize || a < s.address + s.rawSize)
    ensures CodeRange(ss, size).begin <= a < CodeRange(ss, size).end
  {
    assert HasCode(s, size);
    assert Covers(CodeRange(ss, size), s, size);
  }

  /** When the range covers every clipped code section: if no code section follows the last
      one at address 0; or every section with code lies at or above one that does follow;
      or no code at all reaches the sections that follow. In the first and last cases the
      range is the whole image. */
  lemma CoversIff(ss: seq<Section>, size: U32)
    ensures CoversAll(ss, size) <==>
            || AfterZero(ss) == []
            || (forall s | s in ss && HasCode(s, size) :: exists t :: t in AfterZero(ss) && t.address <= s.address)
            || (forall s, t | s in ss && s.code && t in AfterZero(ss) :: End(s, size) <= t.address)
  {
    ExtentEnds(ss, size);
    ExtentBegins(ss, size);
    if AfterZero(ss) != [] {
      var low :| low in AfterZero(ss) && low.address == Extent(ss, size).begin;
      if Extent(ss, size).end <= low.address {
        assert CoversAll(ss, size);
      } else {
        LastEnd(ss, size);
        var reaching :| reaching in ss && reaching.code && End(reaching, size) > low.address;
        assert CodeRange(ss, size) == Extent(ss, size);
      }
    }
  }

  lemma {:induction false} LastEnd(ss: seq<Section>, size: U32)
    ensures Extent(ss, size).end == 0 || exists s :: s in ss && s.code && End(s, size) == Extent(ss, size).end
    decreases |ss|
  {
    if ss != [] {
      LastEnd(ss[..|ss| - 1], size);
    }
  }

  /** When all code sections have code inside the image, the range loses one exactly if a
      code section at address 0 is followed, and not by another at address 0 in the end. */
  lemma LosesCodeIff(ss: seq<Section>, size: U32)
    requires forall s | s in ss && s.code :: HasCode(s, size)
    ensures !CoversAll(ss, size) <==> AfterZero(ss) != [] && exists s :: s in ss && s.code && s.address == 0
  {
    ExtentEnds(ss, size);
    ExtentBegins(ss, size);
    if exists s :: s in ss && s.code && s.address == 0 {
      var s :| s in ss && s.code && s.address == 0;
      if AfterZero(ss) != [] {
        var low :| low in AfterZero(ss) && low.address == Extent(ss, size).begin;
        assert HasCode(low, size) && HasCode(s, size) && !Covers(CodeRange(ss, size), s, size);
      }
    } else {
      CoversWithoutZero(ss, size);
    }
  }

  /** The least example: two sections, and the one at address 0 is lost. */
  lemma LosesFirstSection()
    ensures
      var ss := [Section(true, 0, 0x1000, 0x1000), Section(true, 0x2000, 0x1000, 0x1000)];
      && CodeRange(ss, 0x4000) == Range(0x2000, 0x3000)
      && HasCode(ss[0], 0x4000) && !CoversAll(ss, 0x4000)
  {
    var first, second := Section(true, 0, 0x1000, 0x1000), Section(true, 0x2000, 0x1000, 0x1000);
    assert [first, second][..1] == [first] && [first][..0] == [];
    assert Extent([first], 0x4000) == Range(0, 0x1000);
    assert first in [first, second] && !Covers(CodeRange([first, second], 0x4000), first, 0x4000);
  }

  // ---- from bytes and text to a match ----

  /** Finds a signature in a module: `pattern` parses it, the constructor finds the code and
      the search decides, for any bytes and any text, whether there is exactly one match. */
  method Find(image: Image, text: string) returns (found: Option<seq<U32>>)
    ensures !IsPe(image) || Parse(text).Err? ==> found == None
    ensures IsPe(image) && Parse(text).Ok? ==>
              var r := CodeRange(AllSections(image), |image|);
              match found
              case Some(saves) =>
                && saves != [] && OnlyMatch(Parse(text).value, image, r.begin, r.end, saves[0])
                && AllWellFormed(Parse(text).value)
                && saves == [saves[0]] + Captured(Parse(text).value, image, saves[0])
              case None => forall at: U32 :: !OnlyMatch(Parse(text).value, image, r.begin, r.end, at)
  {
    var parser := new Parser(text);
    var parsed := parser.ParseOperations(None);
    if parsed.Err? {
      return None;
    }
    var file := new PeFile(image);
    ParseIsWellFormed(text);
    if file.valid {
      RangeIsSearchable(AllSections(image), |image|);
    }
    var scanner := new Scanner(image);
    found := scanner.FindUniqueCode(file.codeRange.begin, file.codeRange.end, parsed.value);
  }
}
