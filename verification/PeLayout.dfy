/** The headers of a portable executable as a linker lays them out, field after field in the
    order of the PE format, and the proof that reading them gives the fields back. */
module PeLayout {
  import opened Wrappers
  import opened Numerals
  import opened PatternScanner
  import opened ByteLayout
  import opened PeImage

  // ---- records of little-endian fields ----

  /** Where field `n` starts: after all before it. */
  function Offset(widths: seq<nat>, n: nat): nat
    requires n <= |widths|
  {
    if n == 0 then 0 else Offset(widths, n - 1) + widths[n - 1]
  }

  /** The first `n` fields, one after the other. */
  function Written(widths: seq<nat>, values: seq<nat>, n: nat): (bytes: seq<Byte>)
    requires n <= |widths| == |values|
    ensures |bytes| == Offset(widths, n)
  {
    if n == 0 then [] else Written(widths, values, n - 1) + LittleBytes(values[n - 1], widths[n - 1])
  }

  /** One value for each field, which it fits. */
  ghost predicate Fits(widths: seq<nat>, values: seq<nat>) {
    |values| == |widths| && forall i | 0 <= i < |widths| :: values[i] < Capacity(widths[i])
  }

  /** The image holds the record at `at`. */
  ghost predicate Carries(image: Image, at: nat, widths: seq<nat>, values: seq<nat>) {
    Fits(widths, values) && Lies(image, at, Written(widths, values, |widths|))
  }

  lemma PartsLie(image: Image, at: nat, first: seq<Byte>, second: seq<Byte>)
    requires Lies(image, at, first + second)
    ensures Lies(image, at, first) && Lies(image, at + |first|, second)
  {
    var bytes := image[at..at + |first + second|];
    forall i | 0 <= i < |first| ensures image[at..at + |first|][i] == first[i] {
      assert bytes[i] == first[i];
    }
    forall i | 0 <= i < |second| ensures image[at + |first|..at + |first| + |second|][i] == second[i] {
      assert bytes[|first| + i] == second[i];
    }
  }

  lemma {:induction false} FieldLies(image: Image, at: nat, widths: seq<nat>, values: seq<nat>, n: nat, i: nat)
    requires i < n <= |widths| == |values| && Lies(image, at, Written(widths, values, n))
    ensures Lies(image, at + Offset(widths, i), LittleBytes(values[i], widths[i]))
    decreases n
  {
    PartsLie(image, at, Written(widths, values, n - 1), LittleBytes(values[n - 1], widths[n - 1]));
    if i < n - 1 {
      FieldLies(image, at, widths, values, n - 1, i);
    }
  }

  /** A field is in the image. */
  lemma FieldIsThere(image: Image, at: nat, widths: seq<nat>, values: seq<nat>, i: nat, offset: nat, width: nat)
    returns (v: nat)
    requires Carries(image, at, widths, values) && i < |widths|
    requires offset == Offset(widths, i) && width == widths[i]
    ensures v == values[i] && v < Capacity(width) && Lies(image, at + offset, LittleBytes(v, width))
  {
    v := values[i];
    FieldLies(image, at, widths, values, |widths|, i);
  }

  /** A field of up to four bytes is read back. */
  lemma FieldReadsBack(image: Image, at: nat, widths: seq<nat>, values: seq<nat>, i: nat, offset: nat, width: nat)
    requires Carries(image, at, widths, values) && i < |widths|
    requires offset == Offset(widths, i) && width == widths[i] <= 4
    ensures at + offset + width <= |image| && ReadAt(image, at + offset, width) == values[i]
    ensures values[i] < Capacity(width)
  {
    var v := FieldIsThere(image, at, widths, values, i, offset, width);
    LyingReadsBack(image, at + offset, v, width);
  }

  lemma LyingReadsBack(image: Image, at: nat, v: nat, width: nat)
    requires width <= 4 && v < Capacity(width) && Lies(image, at, LittleBytes(v, width))
    ensures at + width <= |image| && ReadAt(image, at, width) == v
  {
    NumberReadsBack(image, at, v, width);
  }

  // ---- the section header ----

  /** Name; virtual size, address and raw size; where the raw data, the relocations and the
      line numbers are, and how many; characteristics. */
  const SECTION: seq<nat> := [8, 4, 4, 4, 4, 4, 4, 2, 2, 4]

  function SectionOf(values: seq<nat>): Section
    requires SectionFits(values)
  {
    Section((values[9] / 0x20) % 2 == 1, values[2], values[1], values[3])
  }

  lemma SectionOffsets()
    ensures Offset(SECTION, 1) == 8 && Offset(SECTION, 2) == 12 && Offset(SECTION, 3) == 16
    ensures Offset(SECTION, 9) == 36 && Offset(SECTION, 10) == 40
    ensures Capacity(4) == 0x1_0000_0000
  {
  }

  /** A section header written field by field reads back as its section. */
  lemma SectionReadsBack(image: Image, at: nat, values: seq<nat>)
    requires Carries(image, at, SECTION, values)
    ensures SectionFits(values) && Readable(image, at, 40) && SectionAt(image, at) == SectionOf(values)
  {
    SectionOffsets();
    FieldReadsBack(image, at, SECTION, values, 1, 8, 4);
    FieldReadsBack(image, at, SECTION, values, 2, 12, 4);
    FieldReadsBack(image, at, SECTION, values, 3, 16, 4);
    FieldReadsBack(image, at, SECTION, values, 9, 36, 4);
  }

  // ---- the headers before it ----

  /** The magic; 29 more words; where the signature is. */
  const DOS: seq<nat> := [2, 58, 4]

  /** The signature; machine and number of sections; time and symbols; the size of the optional
      header; characteristics. */
  const FILE: seq<nat> := [4, 2, 2, 12, 2, 2]

  /** The optional header of 32 bits up to the export directory: the magic; linker version,
      sizes, entry point and two bases; the image base; from the alignments to the number of
      directories; the address and size of the export directory. */
  const OPTIONAL_32: seq<nat> := [2, 26, 4, 64, 4, 4]

  /** The same of 64 bits, with one base less before a wider image base, and stack and heap
      sizes that are wider. */
  const OPTIONAL_64: seq<nat> := [2, 22, 8, 80, 4, 4]

  lemma HeaderOffsets()
    ensures Offset(DOS, 0) == 0 && Offset(DOS, 2) == 0x3C
    ensures Offset(FILE, 0) == 0 && Offset(FILE, 2) == 6 && Offset(FILE, 4) == 20 && Offset(FILE, 6) == 24
    ensures Capacity(2) == 0x1_0000 && Capacity(4) == 0x1_0000_0000
  {
  }

  lemma OptionalOffsets(widths: seq<nat>)
    requires widths in {OPTIONAL_32, OPTIONAL_64}
    ensures Offset(widths, 0) == 0 && Offset(widths, 2) == (if widths == OPTIONAL_64 then 24 else 28)
    ensures Offset(widths, 4) == (if widths == OPTIONAL_64 then 112 else 96)
    ensures Offset(widths, 5) == Offset(widths, 4) + 4 && Offset(widths, 6) == Offset(widths, 4) + 8
  {
  }

  /** The values of every header; `more` is how many bytes of the optional header follow the
      export directory. */
  datatype Headers = Headers(dos: seq<nat>, file: seq<nat>, wide: bool, optional: seq<nat>, more: nat,
                             sections: seq<seq<nat>>)
  {
    function Widths(): seq<nat> {
      if wide then OPTIONAL_64 else OPTIONAL_32
    }

    /** Where the signature, the optional header and the section table start. */
    function Signature(): nat
      requires |dos| == 3
    {
      dos[2]
    }

    function OptionalAt(): nat
      requires |dos| == 3
    {
      Signature() + 24
    }

    function Table(): nat
      requires |dos| == 3
    {
      OptionalAt() + (if wide then 120 else 104) + more
    }
  }

  ghost predicate DosLaidOut(image: Image, h: Headers) {
    Carries(image, 0, DOS, h.dos) && h.dos[0] == 0x5A4D
  }

  ghost predicate FileLaidOut(image: Image, h: Headers)
    requires |h.dos| == 3
  {
    && Carries(image, h.Signature(), FILE, h.file) && h.file[0] == 0x4550
    && h.file[2] == |h.sections| && h.OptionalAt() + h.file[4] == h.Table() <= |image|
  }

  ghost predicate OptionalLaidOut(image: Image, h: Headers)
    requires |h.dos| == 3
  {
    Carries(image, h.OptionalAt(), h.Widths(), h.optional) && h.optional[0] == (if h.wide then 0x20B else 0x10B)
  }

  ghost predicate SectionsLaidOut(image: Image, table: nat, sections: seq<seq<nat>>) {
    forall i | 0 <= i < |sections| :: Carries(image, Header(table, i), SECTION, sections[i])
  }

  /** The headers are in the image, each where the one before says. */
  ghost predicate LaidOut(image: Image, h: Headers) {
    && |image| >= MIN_SIZE
    && DosLaidOut(image, h) && FileLaidOut(image, h) && OptionalLaidOut(image, h)
    && SectionsLaidOut(image, h.Table(), h.sections)
  }

  /** What a linker lays out is read back: the file is valid, with this image base, this export
      directory and these sections in order. */
  lemma HeadersReadBack(image: Image, h: Headers)
    requires LaidOut(image, h)
    ensures IsPe(image)
    ensures PreferredBase(image) == h.optional[2] && ExportEntry(image) == (h.optional[4], h.optional[5])
    ensures |AllSections(image)| == |h.sections|
    ensures forall i | 0 <= i < |h.sections| ::
              SectionFits(h.sections[i]) && AllSections(image)[i] == SectionOf(h.sections[i])
  {
    FileReadsBack(image, h);
    OptionalReadsBack(image, h);
    SectionsReadBack(image, h.Table(), h.sections, |h.sections|);
  }

  lemma DosReadsBack(image: Image, h: Headers)
    requires |image| >= MIN_SIZE && DosLaidOut(image, h)
    ensures image[0] == 'M' as int && image[1] == 'Z' as int
    ensures U32At(image, 0x3C) == h.Signature()
  {
    HeaderOffsets();
    FieldReadsBack(image, 0, DOS, h.dos, 0, 0, 2);
    FieldReadsBack(image, 0, DOS, h.dos, 2, 0x3C, 4);
    MagicIs(image);
  }

  lemma MagicIs(image: Image)
    requires |image| >= 2 && ReadAt(image, 0, 2) == 0x5A4D
    ensures image[0] == 'M' as int && image[1] == 'Z' as int
  {
    assert LittleEndian(image[0..2][1..]) == image[1] + 0x100 * LittleEndian(image[0..2][1..][1..]);
  }

  lemma FileReadsBack(image: Image, h: Headers)
    requires |image| >= MIN_SIZE && DosLaidOut(image, h) && FileLaidOut(image, h)
    ensures HasNtHeader(image) && FileHeader(image) == h.Signature() + 4
    ensures SectionCount(image) == |h.sections| && SectionTable(image) == h.Table() && Optional(image) == h.OptionalAt()
  {
    var at := h.Signature();
    DosReadsBack(image, h);
    HeaderOffsets();
    FieldReadsBack(image, at, FILE, h.file, 0, 0, 4);
    FieldReadsBack(image, at, FILE, h.file, 2, 6, 2);
    FieldReadsBack(image, at, FILE, h.file, 4, 20, 2);
    FileFields(image, at, h.file[2], h.file[4]);
  }

  lemma FileFields(image: Image, at: nat, count: nat, size: nat)
    requires |image| >= MIN_SIZE && image[0] == 'M' as int && image[1] == 'Z' as int && U32At(image, 0x3C) == at
    requires at + 24 <= |image| && ReadAt(image, at, 4) == SIGNATURE
    requires ReadAt(image, at + 6, 2) == count && ReadAt(image, at + 20, 2) == size
    ensures HasNtHeader(image) && FileHeader(image) == at + 4 && Optional(image) == at + 24
    ensures SectionCount(image) == count && SectionTable(image) == at + 24 + size
  {
  }

  lemma OptionalReadsBack(image: Image, h: Headers)
    requires |h.dos| == 3 && OptionalLaidOut(image, h) && HasNtHeader(image)
    requires Optional(image) == h.OptionalAt() && SectionTable(image) <= |image|
    ensures Directory(image).Some?
    ensures PreferredBase(image) == h.optional[2] && ExportEntry(image) == (h.optional[4], h.optional[5])
  {
    if h.wide {
      WideReadsBack(image, h.OptionalAt(), h.optional);
    } else {
      NarrowReadsBack(image, h.OptionalAt(), h.optional);
    }
  }

  lemma WideReadsBack(image: Image, at: nat, values: seq<nat>)
    requires HasNtHeader(image) && Optional(image) == at && SectionTable(image) <= |image|
    requires Carries(image, at, OPTIONAL_64, values) && values[0] == 0x20B
    ensures Directory(image) == Some(at + 112)
    ensures PreferredBase(image) == values[2] && ExportEntry(image) == (values[4], values[5])
  {
    OptionalOffsets(OPTIONAL_64);
    FieldReadsBack(image, at, OPTIONAL_64, values, 0, 0, 2);
    WideBaseReadsBack(image, at, values);
    FieldReadsBack(image, at, OPTIONAL_64, values, 4, 112, 4);
    FieldReadsBack(image, at, OPTIONAL_64, values, 5, 116, 4);
    WideFields(image, at, values[2], values[4], values[5]);
  }

  lemma WideFields(image: Image, at: nat, base: nat, rva: U32, size: U32)
    requires HasNtHeader(image) && Optional(image) == at && SectionTable(image) <= |image|
    requires at + 120 <= |image| && ReadAt(image, at, 2) == 0x20B
    requires U64(image, at + 24) == base && ReadAt(image, at + 112, 4) == rva && ReadAt(image, at + 116, 4) == size
    ensures Directory(image) == Some(at + 112)
    ensures PreferredBase(image) == base && ExportEntry(image) == (rva, size)
  {
  }

  lemma NarrowReadsBack(image: Image, at: nat, values: seq<nat>)
    requires HasNtHeader(image) && Optional(image) == at && SectionTable(image) <= |image|
    requires Carries(image, at, OPTIONAL_32, values) && values[0] == 0x10B
    ensures Directory(image) == Some(at + 96)
    ensures PreferredBase(image) == values[2] && ExportEntry(image) == (values[4], values[5])
  {
    OptionalOffsets(OPTIONAL_32);
    FieldReadsBack(image, at, OPTIONAL_32, values, 0, 0, 2);
    FieldReadsBack(image, at, OPTIONAL_32, values, 2, 28, 4);
    FieldReadsBack(image, at, OPTIONAL_32, values, 4, 96, 4);
    FieldReadsBack(image, at, OPTIONAL_32, values, 5, 100, 4);
    NarrowFields(image, at, values[2], values[4], values[5]);
  }

  lemma NarrowFields(image: Image, at: nat, base: nat, rva: U32, size: U32)
    requires HasNtHeader(image) && Optional(image) == at && SectionTable(image) <= |image|
    requires at + 104 <= |image| && ReadAt(image, at, 2) == 0x10B
    requires ReadAt(image, at + 28, 4) == base && ReadAt(image, at + 96, 4) == rva && ReadAt(image, at + 100, 4) == size
    ensures Directory(image) == Some(at + 96)
    ensures PreferredBase(image) == base && ExportEntry(image) == (rva, size)
  {
  }

  lemma WideBaseReadsBack(image: Image, at: nat, values: seq<nat>)
    requires Carries(image, at, OPTIONAL_64, values)
    ensures at + 32 <= |image| && U64(image, at + 24) == values[2]
  {
    OptionalOffsets(OPTIONAL_64);
    FieldLies(image, at, OPTIONAL_64, values, |OPTIONAL_64|, 2);
    LittleReadsBack(values[2], 8);
  }

  predicate SectionFits(values: seq<nat>) {
    |values| == 10 && values[1] < 0x1_0000_0000 && values[2] < 0x1_0000_0000 && values[3] < 0x1_0000_0000
  }

  lemma {:induction false} SectionsReadBack(image: Image, table: nat, sections: seq<seq<nat>>, n: nat)
    requires SectionsLaidOut(image, table, sections) && n <= |sections|
    ensures n > 0 ==> Header(table, n) <= |image|
    ensures |Sections(image, table, n)| == n
    ensures forall i | 0 <= i < n :: SectionFits(sections[i]) && Sections(image, table, n)[i] == SectionOf(sections[i])
    decreases n
  {
    if n > 0 {
      SectionsReadBack(image, table, sections, n - 1);
      SectionReadsBack(image, Header(table, n - 1), sections[n - 1]);
    }
  }

  /** A file that is taken for valid has its magic values: `MZ`, the signature where the last
      field of the DOS header says, and one of the two kinds of optional header. */
  lemma ValidHasMagic(image: Image)
    requires IsPe(image)
    ensures
      var at := LittleEndian(image[0x3C..0x40]);
      && |image| >= MIN_SIZE && image[..2] == LittleBytes(0x5A4D, 2)
      && at + 26 <= |image| && image[at..at + 4] == LittleBytes(0x4550, 4)
      && LittleEndian(image[at + 24..at + 26]) in {0x10B, 0x20B}
  {
    DosMagic(image);
    ValidStarts(image);
    NumberIsBytes(image, U32At(image, 0x3C), SIGNATURE, 4);
  }

  lemma DosMagic(image: Image)
    requires |image| >= MIN_SIZE && image[0] == 'M' as int && image[1] == 'Z' as int
    ensures image[..2] == LittleBytes(0x5A4D, 2)
  {
    assert LittleBytes(0x5A4D, 2) == [0x4D] + LittleBytes(0x5A, 1);
    assert LittleBytes(0x5A, 1) == [0x5A] + LittleBytes(0, 0);
  }

  lemma ValidStarts(image: Image)
    requires IsPe(image)
    ensures
      var at := U32At(image, 0x3C);
      && |image| >= MIN_SIZE && image[0] == 'M' as int && image[1] == 'Z' as int
      && at + 26 <= |image| && ReadAt(image, at, 4) == SIGNATURE && ReadAt(image, at + 24, 2) in {0x10B, 0x20B}
  {
    assert FileHeader(image) == U32At(image, 0x3C) + 4;
  }

  lemma NumberIsBytes(image: Image, at: nat, v: nat, width: nat)
    requires width <= 4 && at + width <= |image| && ReadAt(image, at, width) == v
    ensures image[at..at + width] == LittleBytes(v, width)
  {
    LittleIsBytes(image[at..at + width], width);
  }

  /** Bytes are those of their number. */
  lemma {:induction false} LittleIsBytes(bytes: seq<Byte>, width: nat)
    requires |bytes| == width
    ensures bytes == LittleBytes(LittleEndian(bytes), width)
    decreases width
  {
    if width > 0 {
      LittleIsBytes(bytes[1..], width - 1);
      assert LittleEndian(bytes) / 0x100 == LittleEndian(bytes[1..]) && LittleEndian(bytes) % 0x100 == bytes[0];
      assert bytes == [bytes[0]] + bytes[1..];
    }
  }
}
