/** The forward-only loader of ELF32 files: a header, then the program header table, read once from a stream. */
module ElfLoader {
  import opened Outcomes

  type int16 = x: int | -0x8000 <= x < 0x8000
  type int8 = x: int | -0x80 <= x < 0x80

  const HEADER_SIZE := 52
  const ENTRY_SIZE := 32

  /** The values Java's casts to `short` and `byte` keep. */
  function ToInt16(x: int): int16 {
    var low := x % 0x1_0000;
    if low < 0x8000 then low else low - 0x1_0000
  }

  function ToInt8(x: int): int8 {
    var low := x % 0x100;
    if low < 0x80 then low else low - 0x100
  }

  datatype Header = Header(
    ident: seq<int8>,
    kind: int16,
    machine: int16,
    version: int32,
    entry: int32,
    phoff: int32,
    shoff: int32,
    flags: int32,
    ehsize: int16,
    phentsize: int16,
    phnum: int16,
    shentsize: int16,
    shnum: int16,
    shstrndx: int16)

  datatype ProgramHeader = ProgramHeader(
    kind: int32,
    offset: int32,
    vaddr: int32,
    paddr: int32,
    filesz: int32,
    memsz: int32,
    flags: int32,
    align: int32)

  const BLANK := ProgramHeader(0, 0, 0, 0, 0, 0, 0, 0)

  // ---- Random access to an image, as System V ABI chapter 4 "ELF Header" and chapter 5 "Program Header" lay
  // ---- it out. Past the end, the -1 of an exhausted stream reads as the byte 255.

  function ByteAt(image: seq<byte>, at: nat): byte {
    if at < |image| then image[at] else 255
  }

  function HalfAt(image: seq<byte>, at: nat): int16 {
    var b0: int, b1: int := ByteAt(image, at), ByteAt(image, at + 1);
    ToInt16(b0 + 0x100 * b1)
  }

  function WordAt(image: seq<byte>, at: nat): int32 {
    var b0: int, b1: int, b2: int, b3: int :=
      ByteAt(image, at), ByteAt(image, at + 1), ByteAt(image, at + 2), ByteAt(image, at + 3);
    ToInt32(b0 + 0x100 * b1 + 0x1_0000 * b2 + 0x100_0000 * b3)
  }

  function HeaderOf(image: seq<byte>): Header {
    Header(seq(16, i requires 0 <= i < 16 => ToInt8(ByteAt(image, i))),
           HalfAt(image, 16), HalfAt(image, 18), WordAt(image, 20), WordAt(image, 24), WordAt(image, 28),
           WordAt(image, 32), WordAt(image, 36), HalfAt(image, 40), HalfAt(image, 42), HalfAt(image, 44),
           HalfAt(image, 46), HalfAt(image, 48), HalfAt(image, 50))
  }

  lemma IdentFound(image: seq<byte>, ident: seq<int8>)
    requires |ident| == 16 && forall k :: 0 <= k < 16 ==> ident[k] == ToInt8(ByteAt(image, k))
    ensures HeaderOf(image).ident == ident
  {
    hide ToInt8, ByteAt, HalfAt, WordAt;
  }

  function ProgramHeaderAt(image: seq<byte>, at: nat): ProgramHeader {
    ProgramHeader(WordAt(image, at), WordAt(image, at + 4), WordAt(image, at + 8), WordAt(image, at + 12),
                  WordAt(image, at + 16), WordAt(image, at + 20), WordAt(image, at + 24), WordAt(image, at + 28))
  }

  // ---- The reader.

  /** Where the loader starts on the table: at its offset, a signed number here, unless that has gone past. */
  function TableStart(h: Header): nat {
    if h.phoff < HEADER_SIZE then HEADER_SIZE else h.phoff
  }

  function EntryStart(h: Header, i: nat): nat {
    TableStart(h) + ENTRY_SIZE * i
  }

  /** Java's `++` on an `int`. */
  function NextInt(x: int): int32 {
    ToInt32(x + 1)
  }

  lemma NextOffset(n: nat)
    ensures NextInt(ToInt32(n)) == ToInt32(n + 1)
  {
    var turns, low := n / 0x1_0000_0000, n % 0x1_0000_0000;
    assert n == 0x1_0000_0000 * turns + low;
    assert (n + 1) % 0x1_0000_0000 == if low == 0xFFFF_FFFF then 0 else low + 1;
  }

  class InputStream {
    const image: seq<byte>
    var position: nat

    constructor (image: seq<byte>)
      ensures this.image == image && position == 0
    {
      this.image := image;
      position := 0;
    }

    /** The next byte, or -1 at the end. */
    method Read() returns (b: int)
      modifies this
      ensures old(position) < |image| ==> b == image[old(position)] && position == old(position) + 1
      ensures old(position) >= |image| ==> b == -1 && position == old(position)
    {
      if position < |image| {
        b := image[position];
        position := position + 1;
      } else {
        b := -1;
      }
    }
  }

  /** `offset` is an `int` of the source, so it wraps; `consumed` counts the reads. */
  class ELFStreamReader {
    const ins: InputStream
    var offset: int32
    ghost var consumed: nat

    ghost predicate Valid()
      reads this, ins
    {
      && offset == ToInt32(consumed)
      && ins.position == if consumed < |ins.image| then consumed else |ins.image|
    }

    constructor (ins: InputStream)
      requires ins.position == 0
      ensures Valid() && this.ins == ins && consumed == 0
    {
      this.ins := ins;
      offset := 0;
      consumed := 0;
    }

    method Read() returns (b: int)
      requires Valid()
      modifies this, ins
      ensures Valid() && consumed == old(consumed) + 1
      ensures b % 0x100 == ByteAt(ins.image, old(consumed)) && offset == NextInt(old(offset))
    {
      NextOffset(consumed);
      hide ToInt32;
      offset := NextInt(offset);
      consumed := consumed + 1;
      b := ins.Read();
    }

    method ReadUChar(n: nat) returns (r: array<int8>)
      requires Valid()
      modifies this, ins
      ensures Valid() && consumed == old(consumed) + n
      ensures fresh(r) && r.Length == n
      ensures forall k :: 0 <= k < n ==> r[k] == ToInt8(ByteAt(ins.image, old(consumed) + k))
    {
      r := new int8[n];
      var i := 0;
      while i < n
        invariant i <= n && Valid() && consumed == old(consumed) + i
        invariant forall k :: 0 <= k < i ==> r[k] == ToInt8(ByteAt(ins.image, old(consumed) + k))
      {
        var b := Read();
        r[i] := ToInt8(b);
        i := i + 1;
      }
    }

    method ReadE32Half() returns (value: int16)
      requires Valid()
      modifies this, ins
      ensures Valid() && consumed == old(consumed) + 2
      ensures value == HalfAt(ins.image, old(consumed))
    {
      hide NextInt, ToInt32, ByteAt;
      var lsb := Read();
      var msb := Read();
      value := ToInt16(0x100 * (msb % 0x100) + lsb % 0x100);
    }

    method ReadE32Word() returns (value: int32)
      requires Valid()
      modifies this, ins
      ensures Valid() && consumed == old(consumed) + 4
      ensures value == WordAt(ins.image, old(consumed))
    {
      hide NextInt, ToInt32, ByteAt;
      var b0 := Read();
      var b1 := Read();
      var b2 := Read();
      var b3 := Read();
      value := ToInt32(0x100_0000 * (b3 % 0x100) + 0x1_0000 * (b2 % 0x100) + 0x100 * (b1 % 0x100) + b0 % 0x100);
    }

    /** Reads on to `seekTo`; there is no way back. */
    method SkipTo(seekTo: int32)
      requires Valid()
      modifies this, ins
      ensures Valid() && consumed == old(consumed) + if old(offset) < seekTo then seekTo - old(offset) else 0
    {
      hide ToInt32, ByteAt;
      while offset < seekTo
        invariant Valid()
        invariant consumed == old(consumed) + (offset - old(offset))
        invariant old(offset) <= offset && (offset <= seekTo || offset == old(offset))
        decreases seekTo - offset
      {
        var _ := Read();
      }
    }

    method ReadHeader() returns (h: Header)
      requires Valid() && consumed == 0
      modifies this, ins
      ensures Valid() && consumed == HEADER_SIZE
      ensures h == HeaderOf(ins.image)
    {
      hide ToInt8, ToInt16, ToInt32, NextInt, ByteAt, HalfAt, WordAt;
      var chars := ReadUChar(16);
      var ident := chars[..];
      IdentFound(ins.image, ident);
      var kind := ReadE32Half();
      var machine := ReadE32Half();
      var version := ReadE32Word();
      var entry := ReadE32Word();
      var phoff := ReadE32Word();
      var shoff := ReadE32Word();
      var flags := ReadE32Word();
      var ehsize := ReadE32Half();
      var phentsize := ReadE32Half();
      var phnum := ReadE32Half();
      var shentsize := ReadE32Half();
      var shnum := ReadE32Half();
      var shstrndx := ReadE32Half();
      h := Header(ident, kind, machine, version, entry, phoff, shoff, flags, ehsize, phentsize, phnum, shentsize,
                  shnum, shstrndx);
    }

    method ReadProgramHeader() returns (ph: ProgramHeader)
      requires Valid()
      modifies this, ins
      ensures Valid() && consumed == old(consumed) + ENTRY_SIZE
      ensures ph == ProgramHeaderAt(ins.image, old(consumed))
    {
      hide WordAt, ToInt32;
      var kind := ReadE32Word();
      var offset := ReadE32Word();
      var vaddr := ReadE32Word();
      var paddr := ReadE32Word();
      var filesz := ReadE32Word();
      var memsz := ReadE32Word();
      var flags := ReadE32Word();
      var align := ReadE32Word();
      ph := ProgramHeader(kind, offset, vaddr, paddr, filesz, memsz, flags, align);
    }

    method ReadTable(count: nat, ghost h: Header) returns (phs: array<ProgramHeader>)
      requires Valid() && consumed == TableStart(h)
      modifies this, ins
      ensures Valid() && consumed == EntryStart(h, count)
      ensures fresh(phs) && phs.Length == count
      ensures forall k :: 0 <= k < count ==> phs[k] == ProgramHeaderAt(ins.image, EntryStart(h, k))
    {
      hide ProgramHeaderAt, ToInt32;
      phs := new ProgramHeader[count](_ => BLANK);
      var i := 0;
      while i < count
        invariant i <= count && Valid() && consumed == EntryStart(h, i)
        invariant forall k :: 0 <= k < i ==> phs[k] == ProgramHeaderAt(ins.image, EntryStart(h, k))
      {
        phs[i] := ReadProgramHeader();
        i := i + 1;
      }
    }
  }

  // ---- Agreement with the format, whose numbers are unsigned.

  function Unsigned8(x: int8): nat {
    x % 0x100
  }

  function Unsigned16(x: int16): nat {
    x % 0x1_0000
  }

  function Unsigned32(x: int32): nat {
    x % 0x1_0000_0000
  }

  /** The number in some bytes of an image, the lowest first. */
  ghost function Field(image: seq<byte>, at: nat, width: nat): nat
    decreases width
  {
    if width == 0 then 0
    else (if at < |image| then image[at] as int else 255) + 0x100 * Field(image, at + 1, width - 1)
  }

  lemma HalfField(image: seq<byte>, at: nat)
    ensures Unsigned16(HalfAt(image, at)) == Field(image, at, 2)
  {
    assert Field(image, at + 2, 0) == 0;
    assert Field(image, at + 1, 1) == ByteAt(image, at + 1);
  }

  lemma WordField(image: seq<byte>, at: nat)
    ensures Unsigned32(WordAt(image, at)) == Field(image, at, 4)
  {
    assert Field(image, at + 4, 0) == 0;
    assert Field(image, at + 3, 1) == ByteAt(image, at + 3);
    assert Field(image, at + 2, 2) == ByteAt(image, at + 2) + 0x100 * Field(image, at + 3, 1);
    assert Field(image, at + 1, 3) == ByteAt(image, at + 1) + 0x100 * Field(image, at + 2, 2);
    assert Field(image, at, 4) == ByteAt(image, at) + 0x100 * Field(image, at + 1, 3);
    hide Field, ByteAt;
    WordOfBytes(ByteAt(image, at), ByteAt(image, at + 1), ByteAt(image, at + 2), ByteAt(image, at + 3));
    hide ToInt32, Unsigned32;
  }

  lemma WordOfBytes(b0: byte, b1: byte, b2: byte, b3: byte)
    ensures var n := b0 as int + 0x100 * b1 as int + 0x1_0000 * b2 as int + 0x100_0000 * b3 as int;
            Unsigned32(ToInt32(n)) == n
  {
  }

  /** Where the fields of a header are: the table of System V ABI chapter 4. */
  lemma HeaderFields(image: seq<byte>)
    ensures var h := HeaderOf(image);
            && |h.ident| == 16 && (forall i :: 0 <= i < 16 ==> Unsigned8(h.ident[i]) == Field(image, i, 1))
            && Unsigned16(h.kind) == Field(image, 16, 2) && Unsigned16(h.machine) == Field(image, 18, 2)
            && Unsigned32(h.version) == Field(image, 20, 4) && Unsigned32(h.entry) == Field(image, 24, 4)
            && Unsigned32(h.phoff) == Field(image, 28, 4) && Unsigned32(h.shoff) == Field(image, 32, 4)
            && Unsigned32(h.flags) == Field(image, 36, 4) && Unsigned16(h.ehsize) == Field(image, 40, 2)
            && Unsigned16(h.phentsize) == Field(image, 42, 2) && Unsigned16(h.phnum) == Field(image, 44, 2)
            && Unsigned16(h.shentsize) == Field(image, 46, 2) && Unsigned16(h.shnum) == Field(image, 48, 2)
            && Unsigned16(h.shstrndx) == Field(image, 50, 2)
  {
    IdentFields(image);
    hide Unsigned8, Unsigned16, Unsigned32, HalfAt, WordAt, Field, ToInt8, ByteAt;
    HalfField(image, 16);
    HalfField(image, 18);
    WordField(image, 20);
    WordField(image, 24);
    WordField(image, 28);
    WordField(image, 32);
    WordField(image, 36);
    HalfField(image, 40);
    HalfField(image, 42);
    HalfField(image, 44);
    HalfField(image, 46);
    HalfField(image, 48);
    HalfField(image, 50);
  }

  lemma IdentFields(image: seq<byte>)
    ensures forall i :: 0 <= i < 16 ==> Unsigned8(HeaderOf(image).ident[i]) == Field(image, i, 1)
  {
    hide HalfAt, WordAt;
    forall i: nat | i < 16 ensures Unsigned8(HeaderOf(image).ident[i]) == Field(image, i, 1) {
      assert Field(image, i + 1, 0) == 0;
    }
  }

  /** Where the fields of a program header are: the table of System V ABI chapter 5. */
  lemma ProgramHeaderFields(image: seq<byte>, at: nat)
    ensures var ph := ProgramHeaderAt(image, at);
            && Unsigned32(ph.kind) == Field(image, at, 4) && Unsigned32(ph.offset) == Field(image, at + 4, 4)
            && Unsigned32(ph.vaddr) == Field(image, at + 8, 4) && Unsigned32(ph.paddr) == Field(image, at + 12, 4)
            && Unsigned32(ph.filesz) == Field(image, at + 16, 4) && Unsigned32(ph.memsz) == Field(image, at + 20, 4)
            && Unsigned32(ph.flags) == Field(image, at + 24, 4) && Unsigned32(ph.align) == Field(image, at + 28, 4)
  {
    hide Unsigned32, WordAt, Field;
    WordField(image, at);
    WordField(image, at + 4);
    WordField(image, at + 8);
    WordField(image, at + 12);
    WordField(image, at + 16);
    WordField(image, at + 20);
    WordField(image, at + 24);
    WordField(image, at + 28);
  }

  /** Where the format puts entry `i` of the table. */
  function EntryOffset(h: Header, i: nat): nat {
    Unsigned32(h.phoff) + Unsigned16(h.phentsize) * i
  }

  /** What a header must say for the loader to find the table: it is empty, or starts at or after the end of the
      header below 2 GB, has fewer than 32768 entries, and those have 32 bytes each if there are several. */
  predicate TableInReach(h: Header) {
    || h.phnum == 0
    || (0 < Unsigned16(h.phnum) < 0x8000 && HEADER_SIZE <= Unsigned32(h.phoff) < 0x8000_0000
        && (Unsigned16(h.phnum) == 1 || Unsigned16(h.phentsize) == ENTRY_SIZE))
  }

  /** The loader produces as many entries as the file has and takes each from its place, exactly then. */
  lemma LoadsTheTableIff(h: Header)
    ensures (h.phnum >= 0 && forall i :: 0 <= i < h.phnum ==> EntryStart(h, i) == EntryOffset(h, i))
       <==> TableInReach(h)
  {
    if h.phnum > 0 && forall i :: 0 <= i < h.phnum ==> EntryStart(h, i) == EntryOffset(h, i) {
      assert EntryStart(h, 0) == EntryOffset(h, 0);
      if h.phnum > 1 { assert EntryStart(h, 1) == EntryOffset(h, 1); }
    }
  }

  /** The end of a table with 32-byte entries, as the loader prints it. */
  lemma PrintedEnd(h: Header)
    requires TableInReach(h) && h.phnum > 0 && Unsigned16(h.phentsize) == ENTRY_SIZE
    ensures ToInt32(EntryStart(h, h.phnum)) == ToInt32(EntryOffset(h, h.phnum))
    ensures ToInt32(EntryStart(h, h.phnum)) == EntryOffset(h, h.phnum) <==> EntryOffset(h, h.phnum) < 0x8000_0000
  {
  }

  // ---- The loader.

  datatype LoadError = NegativeArraySize

  class ELFFile {
    const header: Header
    const programHeaders: array<ProgramHeader>

    constructor (header: Header, programHeaders: array<ProgramHeader>)
      ensures this.header == header && this.programHeaders == programHeaders
    {
      this.header := header;
      this.programHeaders := programHeaders;
    }

    /** `offset` is what the loader prints at the end. */
    static method LoadFromStream(ins: InputStream) returns (r: Result<ELFFile, LoadError>, offset: int32)
      requires ins.position == 0
      modifies ins
      ensures var h := HeaderOf(ins.image);
              && (r.Err? <==> h.phnum < 0)
              && (r.Ok? ==> r.value.header == h && r.value.programHeaders.Length == h.phnum
                            && offset == ToInt32(EntryStart(h, h.phnum)))
      ensures r.Ok? ==> forall i :: 0 <= i < r.value.programHeaders.Length ==>
                          r.value.programHeaders[i] == ProgramHeaderAt(ins.image, EntryStart(r.value.header, i))
      ensures TableInReach(HeaderOf(ins.image)) ==>
                && r.Ok?
                && forall i :: 0 <= i < r.value.programHeaders.Length ==>
                     r.value.programHeaders[i] == ProgramHeaderAt(ins.image, EntryOffset(r.value.header, i))
      ensures var h := HeaderOf(ins.image);
              TableInReach(h) && h.phnum > 0 && Unsigned16(h.phentsize) == ENTRY_SIZE ==>
                (offset == EntryOffset(h, h.phnum) <==> EntryOffset(h, h.phnum) < 0x8000_0000)
    {
      var esr := new ELFStreamReader(ins);
      var h := esr.ReadHeader();
      LoadsTheTableIff(h);
      if TableInReach(h) && h.phnum > 0 && Unsigned16(h.phentsize) == ENTRY_SIZE { PrintedEnd(h); }
      hide HeaderOf, ProgramHeaderAt, TableInReach, EntryOffset;
      esr.SkipTo(h.phoff);
      hide ToInt32;
      if h.phnum < 0 {
        return Err(NegativeArraySize), esr.offset;
      }
      var programHeaders := esr.ReadTable(h.phnum, h);
      var file := new ELFFile(h, programHeaders);
      return Ok(file), esr.offset;
    }
  }

  /** A table that overlaps the header is not read: one of 1 entry at offset 4 of a 52-byte file comes out as
      the bytes past the end. */
  lemma TableInsideHeaderIsMissed()
    ensures exists image: seq<byte> ::
              var h := HeaderOf(image);
              && h.phoff == 4 && h.phnum == 1 && EntryOffset(h, 0) + ENTRY_SIZE <= |image|
              && ProgramHeaderAt(image, EntryOffset(h, 0)).kind == 0
              && ProgramHeaderAt(image, EntryStart(h, 0)).kind == -1
  {
    var image: seq<byte> := seq(HEADER_SIZE, i => if i == 28 then 4 else if i == 44 then 1 else 0);
    MissedHeader(image);
    MissedEntries(image);
    hide HeaderOf, ProgramHeaderAt;
  }

  lemma MissedHeader(image: seq<byte>)
    requires |image| == HEADER_SIZE && image[28] == 4 && image[29] == image[30] == image[31] == 0
    requires image[44] == 1 && image[45] == 0
    ensures HeaderOf(image).phoff == 4 && HeaderOf(image).phnum == 1
  {
    assert WordAt(image, 28) == 4 && HalfAt(image, 44) == 1;
    hide WordAt, HalfAt;
  }

  lemma MissedEntries(image: seq<byte>)
    requires |image| == HEADER_SIZE && image[4] == image[5] == image[6] == image[7] == 0
    ensures ProgramHeaderAt(image, 4).kind == 0 && ProgramHeaderAt(image, 52).kind == -1
  {
    assert WordAt(image, 4) == 0 && WordAt(image, 52) == -1;
    hide WordAt;
  }

  // ---- Round trip: an image written field by field loads as what was written. Each writer takes what follows.

  function EncodeHalf(x: int16): seq<byte> {
    var u := Unsigned16(x);
    [u % 0x100, u / 0x100]
  }

  function EncodeWord(x: int32): seq<byte> {
    var u := Unsigned32(x);
    [u % 0x100, u / 0x100 % 0x100, u / 0x1_0000 % 0x100, u / 0x100_0000]
  }

  function EncodeChar(x: int): (b: byte)
    ensures -0x80 <= x < 0x80 ==> ToInt8(b) == x
  {
    x % 0x100
  }

  function EncodeIdent(ident: seq<int8>): (bs: seq<byte>)
    ensures |bs| == |ident|
  {
    seq(|ident|, i requires 0 <= i < |ident| => EncodeChar(ident[i]))
  }

  function HeaderImage(h: Header, rest: seq<byte>): seq<byte> {
    EncodeIdent(h.ident) + (EncodeHalf(h.kind) + (EncodeHalf(h.machine) + (EncodeWord(h.version) + (
    EncodeWord(h.entry) + (EncodeWord(h.phoff) + (EncodeWord(h.shoff) + (EncodeWord(h.flags) + (
    EncodeHalf(h.ehsize) + (EncodeHalf(h.phentsize) + (EncodeHalf(h.phnum) + (EncodeHalf(h.shentsize) + (
    EncodeHalf(h.shnum) + (EncodeHalf(h.shstrndx) + rest)))))))))))))
  }

  function EntryImage(ph: ProgramHeader, rest: seq<byte>): seq<byte> {
    EncodeWord(ph.kind) + (EncodeWord(ph.offset) + (EncodeWord(ph.vaddr) + (EncodeWord(ph.paddr) + (
    EncodeWord(ph.filesz) + (EncodeWord(ph.memsz) + (EncodeWord(ph.flags) + (EncodeWord(ph.align) + rest)))))))
  }

  function TableImage(phs: seq<ProgramHeader>, rest: seq<byte>): seq<byte> {
    if phs == [] then rest else EntryImage(phs[0], TableImage(phs[1..], rest))
  }

  lemma ReadHalf(image: seq<byte>, at: nat, x: int16, rest: seq<byte>)
    requires at <= |image| && image[at..] == EncodeHalf(x) + rest
    ensures HalfAt(image, at) == x
    ensures at + 2 <= |image| && image[at + 2..] == rest
  {
    var tail := image[at..];
    assert tail[0] == image[at] && tail[1] == image[at + 1];
    assert tail[2..] == rest;
  }

  lemma ReadWord(image: seq<byte>, at: nat, x: int32, rest: seq<byte>)
    requires at <= |image| && image[at..] == EncodeWord(x) + rest
    ensures WordAt(image, at) == x
    ensures at + 4 <= |image| && image[at + 4..] == rest
  {
    TailAt(image, at, EncodeWord(x), rest);
    WordOfDigits(x);
    hide EncodeWord, ToInt32;
  }

  /** What an image holds from `at` on, byte by byte, if that begins with four given bytes. */
  lemma TailAt(image: seq<byte>, at: nat, front: seq<byte>, rest: seq<byte>)
    requires at <= |image| && |front| == 4 && image[at..] == front + rest
    ensures at + 4 <= |image| && image[at + 4..] == rest
    ensures forall i :: 0 <= i < 4 ==> image[at + i] == front[i]
  {
    var tail := image[at..];
    assert forall i :: 0 <= i < 4 ==> tail[i] == image[at + i];
    assert tail[4..] == rest;
  }

  lemma WordOfDigits(x: int32)
    ensures WordAt(EncodeWord(x), 0) == x
  {
    CastBack(x);
    hide ToInt32, Unsigned32;
    Digits(Unsigned32(x));
  }

  lemma CastBack(x: int32)
    ensures ToInt32(Unsigned32(x)) == x
  {
  }

  lemma {:induction false} HeaderRoundTrip(h: Header, rest: seq<byte>)
    requires |h.ident| == 16
    ensures HeaderOf(HeaderImage(h, rest)) == h
    ensures HEADER_SIZE <= |HeaderImage(h, rest)| && HeaderImage(h, rest)[HEADER_SIZE..] == rest
  {
    var image := HeaderImage(h, rest);
    var ident := EncodeIdent(h.ident);
    assert HeaderOf(image).ident == h.ident by {
      assert image[..16] == ident;
      assert forall i :: 0 <= i < 16 ==> image[..16][i] == image[i];
    }
    hide EncodeHalf, EncodeWord, EncodeIdent, HalfAt, WordAt, ByteAt, ToInt8;
    var r13 := EncodeHalf(h.shstrndx) + rest;
    var r12 := EncodeHalf(h.shnum) + r13;
    var r11 := EncodeHalf(h.shentsize) + r12;
    var r10 := EncodeHalf(h.phnum) + r11;
    var r9 := EncodeHalf(h.phentsize) + r10;
    var r8 := EncodeHalf(h.ehsize) + r9;
    var r7 := EncodeWord(h.flags) + r8;
    var r6 := EncodeWord(h.shoff) + r7;
    var r5 := EncodeWord(h.phoff) + r6;
    var r4 := EncodeWord(h.entry) + r5;
    var r3 := EncodeWord(h.version) + r4;
    var r2 := EncodeHalf(h.machine) + r3;
    var r1 := EncodeHalf(h.kind) + r2;
    assert image == ident + r1 && image[16..] == r1;
    ReadHalf(image, 16, h.kind, r2);
    ReadHalf(image, 18, h.machine, r3);
    ReadWord(image, 20, h.version, r4);
    ReadWord(image, 24, h.entry, r5);
    ReadWord(image, 28, h.phoff, r6);
    ReadWord(image, 32, h.shoff, r7);
    ReadWord(image, 36, h.flags, r8);
    ReadHalf(image, 40, h.ehsize, r9);
    ReadHalf(image, 42, h.phentsize, r10);
    ReadHalf(image, 44, h.phnum, r11);
    ReadHalf(image, 46, h.shentsize, r12);
    ReadHalf(image, 48, h.shnum, r13);
    ReadHalf(image, 50, h.shstrndx, rest);
  }

  lemma EntryRoundTrip(image: seq<byte>, at: nat, ph: ProgramHeader, rest: seq<byte>)
    requires at <= |image| && image[at..] == EntryImage(ph, rest)
    ensures ProgramHeaderAt(image, at) == ph
    ensures at + ENTRY_SIZE <= |image| && image[at + ENTRY_SIZE..] == rest
  {
    hide EncodeWord, WordAt;
    var r8 := EncodeWord(ph.align) + rest;
    var r7 := EncodeWord(ph.flags) + r8;
    var r6 := EncodeWord(ph.memsz) + r7;
    var r5 := EncodeWord(ph.filesz) + r6;
    var r4 := EncodeWord(ph.paddr) + r5;
    var r3 := EncodeWord(ph.vaddr) + r4;
    var r2 := EncodeWord(ph.offset) + r3;
    ReadWord(image, at, ph.kind, r2);
    ReadWord(image, at + 4, ph.offset, r3);
    ReadWord(image, at + 8, ph.vaddr, r4);
    ReadWord(image, at + 12, ph.paddr, r5);
    ReadWord(image, at + 16, ph.filesz, r6);
    ReadWord(image, at + 20, ph.memsz, r7);
    ReadWord(image, at + 24, ph.flags, r8);
    ReadWord(image, at + 28, ph.align, rest);
  }

  lemma {:induction false} TableRoundTrip(image: seq<byte>, at: nat, phs: seq<ProgramHeader>, rest: seq<byte>, i: nat)
    requires at <= |image| && image[at..] == TableImage(phs, rest) && i < |phs|
    ensures ProgramHeaderAt(image, at + ENTRY_SIZE * i) == phs[i]
    decreases i
  {
    hide EntryImage, ProgramHeaderAt;
    EntryRoundTrip(image, at, phs[0], TableImage(phs[1..], rest));
    if i > 0 { TableRoundTrip(image, at + ENTRY_SIZE, phs[1..], rest, i - 1); }
  }

  /** Every header and table written as the format says, with anything between and after them, is what the
      loader's positions hold. */
  lemma {:induction false} FileRoundTrip(h: Header, gap: seq<byte>, phs: seq<ProgramHeader>, rest: seq<byte>, i: nat)
    requires |h.ident| == 16 && h.phoff == HEADER_SIZE + |gap| && h.phnum == |phs| && i < |phs|
    ensures var image := HeaderImage(h, gap + TableImage(phs, rest));
            HeaderOf(image) == h && ProgramHeaderAt(image, EntryStart(HeaderOf(image), i)) == phs[i]
  {
    hide HeaderImage, HeaderOf, ProgramHeaderAt;
    var table := TableImage(phs, rest);
    var image := HeaderImage(h, gap + table);
    HeaderRoundTrip(h, gap + table);
    assert image[h.phoff..] == image[HEADER_SIZE..][|gap|..] == table;
    TableRoundTrip(image, h.phoff, phs, rest, i);
  }
}
