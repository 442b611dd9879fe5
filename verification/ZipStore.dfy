/**
 * The store-only ZIP writer, and a reader that goes from the end record through the central directory to
 * each local header (APPNOTE.TXT sections 4.3.7, 4.3.12 and 4.3.16). CRC-32 is a parameter.
 */
module ZipStore {
  import opened Bytes
  import opened Seqs
  import opened Wrappers

  const LOCAL := 0x04034b50
  const CENTRAL := 0x02014b50
  const EOCD := 0x06054b50
  const UTF8 := 2048

  /** A file to pack; the name is already encoded. */
  datatype Entry = Entry(name: seq<byte>, data: seq<byte>)

  type Crc = seq<byte> -> int

  /** A 16-bit field; the writer throws when the number does not fit. */
  function U16(n: nat): (b: seq<byte>)
    ensures |b| == 2
  {
    ToLittleEndian(n, 2)
  }

  /** A 32-bit field; the number is reduced modulo 2^32. */
  function U32(n: int): (b: seq<byte>)
    ensures |b| == 4
  {
    ToLittleEndian(n % 0x1_0000_0000, 4)
  }

  /** The fixed part of a local header. */
  function LocalHeader(crc: int, size: nat, nameLength: nat): (b: seq<byte>)
    ensures |b| == 30
  {
    U32(LOCAL) + U16(20) + U16(UTF8) + U16(0) + U16(0) + U16(0)
    + U32(crc) + U32(size) + U32(size) + U16(nameLength) + U16(0)
  }

  /** The fixed part of a central directory header. */
  function CentralHeader(crc: int, size: nat, nameLength: nat, offset: nat): (b: seq<byte>)
    ensures |b| == 46
  {
    U32(CENTRAL) + U16(20) + U16(20) + U16(UTF8) + U16(0) + U16(0) + U16(0)
    + U32(crc) + U32(size) + U32(size) + U16(nameLength) + U16(0) + U16(0) + U16(0) + U16(0) + U32(0) + U32(offset)
  }

  function EndRecord(count: nat, centralSize: nat, centralOffset: nat): (b: seq<byte>)
    ensures |b| == 22
  {
    U32(EOCD) + U16(0) + U16(0) + U16(count) + U16(count) + U32(centralSize) + U32(centralOffset) + U16(0)
  }

  /** How an entry's fixed headers are laid out; the packing around them does not depend on it. */
  datatype Format = Format(local: Entry -> seq<byte>, central: (Entry, nat) -> seq<byte>)

  function StoreFormat(crc: Crc): Format {
    Format((e: Entry) => LocalHeader(crc(e.data), |e.data|, |e.name|),
           (e: Entry, offset: nat) => CentralHeader(crc(e.data), |e.data|, |e.name|, offset))
  }

  function LocalRecord(f: Format, e: Entry): seq<byte> {
    f.local(e) + e.name + e.data
  }

  function CentralRecord(f: Format, e: Entry, offset: nat): seq<byte> {
    f.central(e, offset) + e.name
  }

  /** `Buffer.concat`. */
  function Concat(parts: seq<seq<byte>>): seq<byte> {
    if parts == [] then [] else Concat(parts[..|parts| - 1]) + parts[|parts| - 1]
  }

  function LocalParts(f: Format, files: seq<Entry>): (parts: seq<seq<byte>>)
    ensures |parts| == |files|
  {
    if files == [] then []
    else LocalParts(f, files[..|files| - 1]) + [LocalRecord(f, files[|files| - 1])]
  }

  /** Where local record i starts: after the records before it. */
  function Offset(f: Format, files: seq<Entry>, i: nat): nat
    requires i <= |files|
  {
    |Concat(LocalParts(f, files[..i]))|
  }

  function CentralParts(f: Format, files: seq<Entry>): (parts: seq<seq<byte>>)
    ensures |parts| == |files|
  {
    if files == [] then []
    else
      var last := |files| - 1;
      CentralParts(f, files[..last]) + [CentralRecord(f, files[last], Offset(f, files, last))]
  }

  /** Everything before the end record. */
  function Body(f: Format, files: seq<Entry>): seq<byte> {
    Concat(LocalParts(f, files)) + Concat(CentralParts(f, files))
  }

  function Archive(crc: Crc, files: seq<Entry>): seq<byte> {
    var f := StoreFormat(crc);
    Body(f, files) + EndRecord(|files|, |Concat(CentralParts(f, files))|, |Concat(LocalParts(f, files))|)
  }

  datatype Error = NameTooLong | TooManyEntries

  /** The 16-bit fields that can throw: every name length, then the count. */
  predicate NamesFit(files: seq<Entry>) {
    forall i | 0 <= i < |files| :: |files[i].name| < 65536
  }

  lemma PartsMore(f: Format, files: seq<Entry>, i: nat)
    requires i < |files|
    ensures LocalParts(f, files[..i + 1]) == LocalParts(f, files[..i]) + [LocalRecord(f, files[i])]
    ensures CentralParts(f, files[..i + 1]) ==
            CentralParts(f, files[..i]) + [CentralRecord(f, files[i], |Concat(LocalParts(f, files[..i]))|)]
  {
    assert files[..i + 1][..i] == files[..i];
  }

  /** What the loop holds after some of the files. */
  predicate Packed(f: Format, files: seq<Entry>, locals: seq<seq<byte>>, centrals: seq<seq<byte>>, offset: nat) {
    locals == LocalParts(f, files) && centrals == CentralParts(f, files) && offset == |Concat(locals)|
  }

  lemma PackedMore(f: Format, files: seq<Entry>, i: nat, locals: seq<seq<byte>>, centrals: seq<seq<byte>>, offset: nat)
    requires i < |files| && Packed(f, files[..i], locals, centrals, offset)
    ensures var local, central := LocalRecord(f, files[i]), CentralRecord(f, files[i], offset);
            Packed(f, files[..i + 1], locals + [local], centrals + [central], offset + |local|)
  {
    PartsMore(f, files, i);
    ConcatMore(locals, LocalRecord(f, files[i]));
  }

  method Parts(f: Format, files: seq<Entry>)
    returns (locals: seq<seq<byte>>, centrals: seq<seq<byte>>, offset: nat, fit: bool)
    ensures fit == NamesFit(files)
    ensures fit ==> locals == LocalParts(f, files) && centrals == CentralParts(f, files)
    ensures fit ==> offset == |Concat(locals)|
  {
    locals, centrals, offset, fit := [], [], 0, true;
    for i := 0 to |files|
      invariant NamesFit(files[..i])
      invariant Packed(f, files[..i], locals, centrals, offset)
    {
      var file := files[i];
      PackedMore(f, files, i, locals, centrals, offset);
      if |file.name| >= 65536 {
        return [], [], 0, false;
      }
      var local := LocalRecord(f, file);
      centrals := centrals + [CentralRecord(f, file, offset)];
      locals := locals + [local];
      offset := offset + |local|;
    }
    assert files[..|files|] == files;
  }

  method Store(crc: Crc, files: seq<Entry>) returns (zip: Result<seq<byte>, Error>)
    ensures zip == if !NamesFit(files) then Err(NameTooLong)
                   else if |files| >= 65536 then Err(TooManyEntries)
                   else Ok(Archive(crc, files))
    ensures zip.Ok? <==> |files| <= 0xffff && forall i | 0 <= i < |files| :: |files[i].name| <= 0xffff
  {
    var locals, centrals, offset, fit := Parts(StoreFormat(crc), files);
    if !fit {
      return Err(NameTooLong);
    }
    var central := Concat(centrals);
    if |files| >= 65536 {
      return Err(TooManyEntries);
    }
    return Ok(Concat(locals) + central + EndRecord(|files|, |central|, offset));
  }

  lemma ConcatMore(parts: seq<seq<byte>>, part: seq<byte>)
    ensures Concat(parts + [part]) == Concat(parts) + part
  {
    assert (parts + [part])[..|parts|] == parts;
  }

  // ---------- the reader ----------

  function Get16(zip: seq<byte>, at: nat): nat
    requires at + 2 <= |zip|
  {
    LittleEndian(zip[at..at + 2])
  }

  function Get32(zip: seq<byte>, at: nat): nat
    requires at + 4 <= |zip|
  {
    LittleEndian(zip[at..at + 4])
  }

  /** The entry whose local header stands at an offset. */
  function ReadLocal(zip: seq<byte>, at: nat): Option<Entry> {
    if at + 30 > |zip| || Get32(zip, at) != LOCAL then None
    else
      var nameAt := at + 30;
      var dataAt := nameAt + Get16(zip, at + 26) + Get16(zip, at + 28);
      var end := dataAt + Get32(zip, at + 18);
      if end > |zip| then None
      else Some(Entry(zip[nameAt..nameAt + Get16(zip, at + 26)], zip[dataAt..end]))
  }

  /**
   * The entry a directory record at `at` stands for, and where the next record starts; the local header
   * must agree with the record on name and size.
   */
  function ReadRecord(zip: seq<byte>, at: nat): Option<(Entry, nat)> {
    if at + 46 > |zip| || Get32(zip, at) != CENTRAL then None
    else
      var nameEnd := at + 46 + Get16(zip, at + 28);
      var next := nameEnd + Get16(zip, at + 30) + Get16(zip, at + 32);
      if next > |zip| then None
      else
        var entry := ReadLocal(zip, Get32(zip, at + 42));
        if entry.None? || entry.value.name != zip[at + 46..nameEnd] || |entry.value.data| != Get32(zip, at + 24)
        then None
        else Some((entry.value, next))
  }

  /** A record and where the next one starts, as a function of where it starts. */
  type RecordReader = nat -> Option<(Entry, nat)>

  function RecordsOf(zip: seq<byte>): RecordReader {
    (at: nat) => ReadRecord(zip, at)
  }

  function ReadDirectory(record: RecordReader, at: nat, count: nat): Option<seq<Entry>>
    decreases count
  {
    if count == 0 then Some([])
    else match record(at)
      case None => None
      case Some((entry, next)) =>
        var rest := ReadDirectory(record, next, count - 1);
        if rest.None? then None else Some([entry] + rest.value)
  }

  /** An archive without comment: the end record is the last 22 bytes. */
  function Read(zip: seq<byte>): Option<seq<Entry>> {
    if |zip| < 22 || Get32(zip, |zip| - 22) != EOCD then None
    else
      var end := |zip| - 22;
      ReadDirectory(RecordsOf(zip), Get32(zip, end + 16), Get16(zip, end + 10))
  }

  // ---------- what the reader needs of the headers ----------

  ghost predicate LocalShape(h: seq<byte>, size: nat, nameLength: nat) {
    |h| == 30 && Get32(h, 0) == LOCAL && Get32(h, 18) == size && Get16(h, 26) == nameLength && Get16(h, 28) == 0
  }

  ghost predicate CentralShape(h: seq<byte>, size: nat, nameLength: nat, offset: nat) {
    && |h| == 46 && Get32(h, 0) == CENTRAL && Get32(h, 24) == size
    && Get16(h, 28) == nameLength && Get16(h, 30) == 0 && Get16(h, 32) == 0
    && Get32(h, 42) == offset
  }

  ghost predicate EndShape(h: seq<byte>, count: nat, offset: nat) {
    |h| == 22 && Get32(h, 0) == EOCD && Get16(h, 10) == count && Get32(h, 16) == offset
  }

  /** Lengths that survive their fields. */
  predicate Packable(e: Entry) {
    |e.name| < 65536 && |e.data| < 0x1_0000_0000
  }

  ghost predicate Readable(f: Format) {
    && (forall e | Packable(e) :: LocalShape(f.local(e), |e.data|, |e.name|))
    && (forall e, offset: nat | Packable(e) && offset < 0x1_0000_0000 ::
          CentralShape(f.central(e, offset), |e.data|, |e.name|, offset))
  }

  lemma Read16(n: nat)
    requires n < 65536
    ensures LittleEndian(U16(n)) == n
  {
    assert Pow256(2) == 65536;
    LittleEndianRead(n, 2);
  }

  lemma Width32()
    ensures Pow256(4) == 0x1_0000_0000
  {
  }

  lemma ReadField(n: nat, reduced: nat, width: nat)
    requires n < Pow256(width) && reduced == n
    ensures LittleEndian(ToLittleEndian(reduced, width)) == n
  {
    LittleEndianRead(n, width);
  }

  lemma Read32(n: nat)
    requires n < 0x1_0000_0000
    ensures LittleEndian(U32(n)) == n
  {
    Width32();
    ReadField(n, n % 0x1_0000_0000, 4);
  }

  lemma LocalFields(crc: int, size: nat, nameLength: nat)
    ensures var h := LocalHeader(crc, size, nameLength);
            h[0..4] == U32(LOCAL) && h[18..22] == U32(size) && h[26..28] == U16(nameLength) && h[28..30] == U16(0)
  {
  }

  lemma CentralFields(crc: int, size: nat, nameLength: nat, offset: nat)
    ensures var h := CentralHeader(crc, size, nameLength, offset);
            && h[0..4] == U32(CENTRAL) && h[24..28] == U32(size)
            && h[28..30] == U16(nameLength) && h[30..32] == U16(0) && h[32..34] == U16(0)
            && h[42..46] == U32(offset)
  {
  }

  lemma EndFields(count: nat, centralSize: nat, centralOffset: nat)
    ensures var h := EndRecord(count, centralSize, centralOffset);
            h[0..4] == U32(EOCD) && h[10..12] == U16(count) && h[16..20] == U32(centralOffset)
  {
    var front := U32(EOCD) + U16(0) + U16(0) + U16(count) + U16(count);
    var size, at := U32(centralSize), U32(centralOffset);
    var before := U32(EOCD) + U16(0) + U16(0) + U16(count);
    Cut(before, U16(count));
    assert front[10..] == front[10..12];
    assert before[0..4] == U32(EOCD);
    EarlySlice(before, U16(count), 0, 4);
    EarlySlice(front, size + at + U16(0), 0, 4);
    EarlySlice(front, size + at + U16(0), 10, 12);
    Assoc(front, size, at);
    Assoc(front, size + at, U16(0));
    Middle(front + size, at, U16(0));
  }

  lemma StoreFormatReadable(crc: Crc)
    ensures Readable(StoreFormat(crc))
  {
    var f := StoreFormat(crc);
    Read32(LOCAL);
    Read32(CENTRAL);
    Read16(0);
    forall e | Packable(e)
      ensures LocalShape(f.local(e), |e.data|, |e.name|)
    {
      LocalFields(crc(e.data), |e.data|, |e.name|);
      Read32(|e.data|);
      Read16(|e.name|);
    }
    forall e, offset: nat | Packable(e) && offset < 0x1_0000_0000
      ensures CentralShape(f.central(e, offset), |e.data|, |e.name|, offset)
    {
      CentralFields(crc(e.data), |e.data|, |e.name|, offset);
      Read32(|e.data|);
      Read16(|e.name|);
      Read32(offset);
    }
  }

  lemma EndReadable(count: nat, centralSize: nat, centralOffset: nat)
    requires count < 65536 && centralOffset < 0x1_0000_0000
    ensures EndShape(EndRecord(count, centralSize, centralOffset), count, centralOffset)
  {
    EndFields(count, centralSize, centralOffset);
    Read32(EOCD);
    Read16(count);
    Read32(centralOffset);
  }

  // ---------- parts of an archive ----------

  /** A part stands at a position of the archive. */
  predicate Stands(zip: seq<byte>, at: nat, part: seq<byte>) {
    at + |part| <= |zip| && zip[at..at + |part|] == part
  }

  lemma Inner(zip: seq<byte>, at: nat, h: seq<byte>, i: nat, j: nat)
    requires Stands(zip, at, h) && i <= j <= |h|
    ensures zip[at + i..at + j] == h[i..j]
  {
    SliceOfSlice(zip, at, at + |h|, i, j);
  }

  lemma StandsInside(zip: seq<byte>, at: nat, header: seq<byte>, name: seq<byte>, data: seq<byte>)
    requires Stands(zip, at, header + name + data)
    ensures Stands(zip, at, header) && Stands(zip, at + |header|, name) && Stands(zip, at + |header + name|, data)
  {
    var all := header + name + data;
    var n, m := |header|, |header| + |name|;
    Inner(zip, at, all, 0, n);
    Inner(zip, at, all, n, m);
    Inner(zip, at, all, m, |all|);
    Middle(header, name, data);
    Cut(header + name, data);
    Assoc(header, name, data);
    Cut(header, name + data);
  }

  lemma StandsLeft(a: seq<byte>, b: seq<byte>, at: nat, part: seq<byte>)
    requires Stands(a, at, part)
    ensures Stands(a + b, at, part)
  {
    EarlySlice(a, b, at, at + |part|);
  }

  lemma StandsRight(a: seq<byte>, b: seq<byte>, at: nat, part: seq<byte>)
    requires Stands(b, at, part)
    ensures Stands(a + b, |a| + at, part)
  {
    assert (a + b)[|a| + at..|a| + at + |part|] == b[at..at + |part|];
  }

  /** A local record is read back wherever it stands. */
  lemma LocalReads(h: seq<byte>, e: Entry, zip: seq<byte>, at: nat)
    requires LocalShape(h, |e.data|, |e.name|) && Stands(zip, at, h + e.name + e.data)
    ensures ReadLocal(zip, at) == Some(e)
  {
    StandsInside(zip, at, h, e.name, e.data);
    Inner(zip, at, h, 0, 4);
    Inner(zip, at, h, 18, 22);
    Inner(zip, at, h, 26, 28);
    Inner(zip, at, h, 28, 30);
  }

  /** What the reader finds in a directory record. */
  predicate Shows(zip: seq<byte>, at: nat, e: Entry, offset: nat) {
    && at + 46 + |e.name| <= |zip|
    && Get32(zip, at) == CENTRAL && Get32(zip, at + 24) == |e.data|
    && Get16(zip, at + 28) == |e.name| && Get16(zip, at + 30) == 0 && Get16(zip, at + 32) == 0
    && Get32(zip, at + 42) == offset
    && zip[at + 46..at + 46 + |e.name|] == e.name
  }

  lemma CentralReads(h: seq<byte>, e: Entry, offset: nat, zip: seq<byte>, at: nat)
    requires CentralShape(h, |e.data|, |e.name|, offset) && Stands(zip, at, h + e.name)
    ensures Shows(zip, at, e, offset)
  {
    Empty(h + e.name);
    StandsInside(zip, at, h, e.name, []);
    Inner(zip, at, h, 0, 4);
    Inner(zip, at, h, 24, 28);
    Inner(zip, at, h, 28, 30);
    Inner(zip, at, h, 30, 32);
    Inner(zip, at, h, 32, 34);
    Inner(zip, at, h, 42, 46);
  }

  lemma {:induction false} PartStands(parts: seq<seq<byte>>, i: nat)
    requires i < |parts|
    ensures Stands(Concat(parts), |Concat(parts[..i])|, parts[i])
    ensures |Concat(parts[..i])| + |parts[i]| == |Concat(parts[..i + 1])|
    decreases |parts|
  {
    var last := |parts| - 1;
    var before := parts[..last];
    assert parts[..i + 1][..i] == parts[..i];
    if i < last {
      PartStands(before, i);
      assert before[..i] == parts[..i];
      var at := |Concat(parts[..i])|;
      EarlySlice(Concat(before), parts[last], at, at + |parts[i]|);
    } else {
      Cut(Concat(before), parts[last]);
    }
  }

  lemma {:induction false} LocalPart(f: Format, files: seq<Entry>, i: nat)
    requires i < |files|
    ensures LocalParts(f, files)[i] == LocalRecord(f, files[i])
    ensures LocalParts(f, files)[..i] == LocalParts(f, files[..i])
    decreases |files|
  {
    var last := |files| - 1;
    if i < last {
      LocalPart(f, files[..last], i);
      assert files[..last][..i] == files[..i];
    }
  }

  lemma {:induction false} CentralPart(f: Format, files: seq<Entry>, i: nat)
    requires i < |files|
    ensures CentralParts(f, files)[i] == CentralRecord(f, files[i], Offset(f, files, i))
    decreases |files|
  {
    var last := |files| - 1;
    if i < last {
      CentralPart(f, files[..last], i);
      assert files[..last][..i] == files[..i];
    }
  }

  // ---------- round trip ----------

  /** Names and count fit 16 bits; the local records end within 32 bits. */
  predicate Storable(f: Format, files: seq<Entry>) {
    NamesFit(files) && |files| < 65536 && |Concat(LocalParts(f, files))| < 0x1_0000_0000
  }

  /** Entry i packs, and its local record is read at its offset. */
  lemma LocalEntryReads(f: Format, files: seq<Entry>, i: nat, end: seq<byte>)
    requires Readable(f) && Storable(f, files) && i < |files|
    ensures Packable(files[i]) && Offset(f, files, i) < 0x1_0000_0000
    ensures ReadLocal(Body(f, files) + end, Offset(f, files, i)) == Some(files[i])
  {
    var parts, centrals := LocalParts(f, files), Concat(CentralParts(f, files));
    PartStands(parts, i);
    LocalPart(f, files, i);
    StandsLeft(Concat(parts), centrals, Offset(f, files, i), parts[i]);
    StandsLeft(Body(f, files), end, Offset(f, files, i), parts[i]);
    LocalReads(f.local(files[i]), files[i], Body(f, files) + end, Offset(f, files, i));
  }

  /** Where directory record i starts. */
  function DirectoryAt(f: Format, files: seq<Entry>, i: nat): nat
    requires i <= |files|
  {
    |Concat(LocalParts(f, files))| + |Concat(CentralParts(f, files)[..i])|
  }

  lemma CentralEntryStands(f: Format, files: seq<Entry>, i: nat, end: seq<byte>)
    requires i < |files|
    ensures Stands(Body(f, files) + end, DirectoryAt(f, files, i), CentralParts(f, files)[i])
    ensures DirectoryAt(f, files, i) + |CentralParts(f, files)[i]| == DirectoryAt(f, files, i + 1)
  {
    var locals, parts := Concat(LocalParts(f, files)), CentralParts(f, files);
    PartStands(parts, i);
    StandsRight(locals, Concat(parts), |Concat(parts[..i])|, parts[i]);
    StandsLeft(locals + Concat(parts), end, DirectoryAt(f, files, i), parts[i]);
  }

  lemma CentralEntryShows(f: Format, files: seq<Entry>, i: nat, end: seq<byte>)
    requires Readable(f) && i < |files| && Packable(files[i]) && Offset(f, files, i) < 0x1_0000_0000
    ensures Shows(Body(f, files) + end, DirectoryAt(f, files, i), files[i], Offset(f, files, i))
    ensures DirectoryAt(f, files, i) + 46 + |files[i].name| == DirectoryAt(f, files, i + 1)
  {
    CentralEntryStands(f, files, i, end);
    CentralPart(f, files, i);
    CentralReads(f.central(files[i], Offset(f, files, i)), files[i], Offset(f, files, i),
                 Body(f, files) + end, DirectoryAt(f, files, i));
  }

  lemma RecordReads(f: Format, files: seq<Entry>, i: nat, end: seq<byte>)
    requires Readable(f) && Storable(f, files) && i < |files|
    ensures ReadRecord(Body(f, files) + end, DirectoryAt(f, files, i)) ==
            Some((files[i], DirectoryAt(f, files, i + 1)))
  {
    LocalEntryReads(f, files, i, end);
    CentralEntryShows(f, files, i, end);
    ShownIsRead(Body(f, files) + end, DirectoryAt(f, files, i), files[i], Offset(f, files, i),
                DirectoryAt(f, files, i + 1));
  }

  lemma ShownIsRead(zip: seq<byte>, at: nat, e: Entry, offset: nat, next: nat)
    requires Shows(zip, at, e, offset) && ReadLocal(zip, offset) == Some(e) && next == at + 46 + |e.name|
    ensures ReadRecord(zip, at) == Some((e, next))
  {
  }

  /** Record k is read, and the next one starts where it ends. */
  ghost predicate RecordAt(record: RecordReader, files: seq<Entry>, at: seq<nat>, k: nat)
    requires |at| == |files| + 1 && k < |files|
  {
    record(at[k]) == Some((files[k], at[k + 1]))
  }

  lemma {:induction false} DirectoryReads(record: RecordReader, files: seq<Entry>, at: seq<nat>, i: nat)
    requires |at| == |files| + 1 && i <= |files|
    requires forall k: nat | k < |files| :: RecordAt(record, files, at, k)
    ensures ReadDirectory(record, at[i], |files| - i) == Some(files[i..])
    decreases |files| - i
  {
    if i < |files| {
      DirectoryReads(record, files, at, i + 1);
      assert RecordAt(record, files, at, i);
      assert files[i..] == [files[i]] + files[i + 1..];
    }
  }

  lemma EndFieldsRead(zip: seq<byte>, at: nat, end: seq<byte>, count: nat, offset: nat)
    requires EndShape(end, count, offset) && Stands(zip, at, end)
    ensures Get32(zip, at) == EOCD && Get16(zip, at + 10) == count && Get32(zip, at + 16) == offset
  {
    Inner(zip, at, end, 0, 4);
    Inner(zip, at, end, 10, 12);
    Inner(zip, at, end, 16, 20);
  }

  lemma EndReads(zip: seq<byte>, at: nat, end: seq<byte>, count: nat, offset: nat)
    requires EndShape(end, count, offset) && Stands(zip, at, end) && |zip| == at + 22
    ensures Read(zip) == ReadDirectory(RecordsOf(zip), offset, count)
  {
    EndFieldsRead(zip, at, end, count, offset);
  }

  lemma ReadsAt(body: seq<byte>, end: seq<byte>, count: nat, offset: nat)
    requires EndShape(end, count, offset)
    ensures Read(body + end) == ReadDirectory(RecordsOf(body + end), offset, count)
  {
    Cut(body, end);
    EndReads(body + end, |body|, end, count, offset);
  }

  lemma RecordsRead(f: Format, files: seq<Entry>, end: seq<byte>, at: seq<nat>)
    requires Readable(f) && Storable(f, files) && at == Starts(f, files)
    ensures forall k: nat | k < |files| :: RecordAt(RecordsOf(Body(f, files) + end), files, at, k)
  {
    forall k: nat | k < |files|
      ensures RecordAt(RecordsOf(Body(f, files) + end), files, at, k)
    {
      RecordReads(f, files, k, end);
    }
  }

  lemma BodyReads(f: Format, files: seq<Entry>, end: seq<byte>)
    requires Readable(f) && Storable(f, files)
    requires EndShape(end, |files|, |Concat(LocalParts(f, files))|)
    ensures Read(Body(f, files) + end) == Some(files)
  {
    var at := Starts(f, files);
    ReadsAt(Body(f, files), end, |files|, at[0]);
    RecordsRead(f, files, end, at);
    DirectoryReads(RecordsOf(Body(f, files) + end), files, at, 0);
    assert files[0..] == files;
  }

  /** The starts of all directory records, and the end of the last. */
  function Starts(f: Format, files: seq<Entry>): (at: seq<nat>)
    ensures |at| == |files| + 1 && at[0] == |Concat(LocalParts(f, files))|
    ensures forall k | 0 <= k <= |files| :: at[k] == DirectoryAt(f, files, k)
  {
    assert CentralParts(f, files)[..0] == [];
    seq(|files| + 1, k requires 0 <= k <= |files| => DirectoryAt(f, files, k))
  }

  /** Main result: the reader recovers exactly the packed entries, in order. */
  lemma RoundTrip(crc: Crc, files: seq<Entry>)
    requires Storable(StoreFormat(crc), files)
    ensures Read(Archive(crc, files)) == Some(files)
  {
    var f := StoreFormat(crc);
    var locals, centrals := |Concat(LocalParts(f, files))|, |Concat(CentralParts(f, files))|;
    StoreFormatReadable(crc);
    EndReadable(|files|, centrals, locals);
    BodyReads(f, files, EndRecord(|files|, centrals, locals));
  }

  // ---------- offsets and sizes ----------

  function LocalWeight(files: seq<Entry>): nat {
    if files == [] then 0
    else LocalWeight(files[..|files| - 1]) + 30 + |files[|files| - 1].name| + |files[|files| - 1].data|
  }

  function Weight(files: seq<Entry>): nat {
    if files == [] then 0
    else
      var last := files[|files| - 1];
      Weight(files[..|files| - 1]) + 76 + 2 * |last.name| + |last.data|
  }

  ghost predicate Sized(f: Format) {
    (forall e :: |f.local(e)| == 30) && (forall e, offset: nat :: |f.central(e, offset)| == 46)
  }

  lemma {:induction false} PartsWeigh(f: Format, files: seq<Entry>)
    requires Sized(f)
    ensures |Concat(LocalParts(f, files))| == LocalWeight(files)
    ensures |Concat(LocalParts(f, files))| + |Concat(CentralParts(f, files))| == Weight(files)
  {
    if files != [] {
      var last := |files| - 1;
      PartsWeigh(f, files[..last]);
      ConcatMore(LocalParts(f, files[..last]), LocalRecord(f, files[last]));
      ConcatMore(CentralParts(f, files[..last]), CentralRecord(f, files[last], Offset(f, files, last)));
    }
  }

  lemma StoreFormatSized(crc: Crc)
    ensures Sized(StoreFormat(crc))
  {
    var f := StoreFormat(crc);
    forall e
      ensures |f.local(e)| == 30
    {
      assert f.local(e) == LocalHeader(crc(e.data), |e.data|, |e.name|);
    }
    forall e, offset: nat
      ensures |f.central(e, offset)| == 46
    {
      assert f.central(e, offset) == CentralHeader(crc(e.data), |e.data|, |e.name|, offset);
    }
  }

  /** Each recorded offset is the total length of the local records before it. */
  lemma RecordedOffset(crc: Crc, files: seq<Entry>, i: nat)
    requires Storable(StoreFormat(crc), files) && i < |files|
    ensures var at := DirectoryAt(StoreFormat(crc), files, i) + 42; var zip := Archive(crc, files);
            at + 4 <= |zip| && Get32(zip, at) == LocalWeight(files[..i])
  {
    var f := StoreFormat(crc);
    StoreFormatReadable(crc);
    LocalEntryReads(f, files, i, []);
    CentralEntryShows(f, files, i,
                      EndRecord(|files|, |Concat(CentralParts(f, files))|, |Concat(LocalParts(f, files))|));
    StoreFormatSized(crc);
    PartsWeigh(f, files[..i]);
  }

  /** An archive takes 22 bytes and, for each entry, 76, twice its name and its data. */
  lemma TotalSize(crc: Crc, files: seq<Entry>)
    ensures |Archive(crc, files)| == 22 + Weight(files)
  {
    StoreFormatSized(crc);
    PartsWeigh(StoreFormat(crc), files);
  }

  lemma SizeField(zip: seq<byte>, at: nat)
    requires at + 4 <= |zip|
    ensures Get32(zip, at) < 0x1_0000_0000
  {
    assert Pow256(4) == 0x1_0000_0000;
    LittleEndianBound(zip[at..at + 4]);
  }

  lemma {:induction false} EntriesAreSmall(record: RecordReader, at: nat, count: nat)
    requires forall n :: record(n).Some? ==> |record(n).value.0.data| < 0x1_0000_0000
    requires ReadDirectory(record, at, count).Some?
    ensures forall e | e in ReadDirectory(record, at, count).value :: |e.data| < 0x1_0000_0000
    decreases count
  {
    if count > 0 {
      EntriesAreSmall(record, record(at).value.1, count - 1);
    }
  }

  lemma RecordIsSmall(zip: seq<byte>, at: nat)
    requires ReadRecord(zip, at).Some?
    ensures |ReadRecord(zip, at).value.0.data| < 0x1_0000_0000
  {
    SizeField(zip, at + 24);
  }

  /** Sizes are reduced silently: an archive holding an entry of 4 GiB or more is never read back. */
  lemma LargeEntryIsLost(crc: Crc, files: seq<Entry>, e: Entry)
    requires e in files && |e.data| >= 0x1_0000_0000
    ensures Read(Archive(crc, files)) != Some(files)
  {
    SmallOrUnread(Archive(crc, files), files, e);
  }

  // ---------- a directory past 2^32 ----------

  /** Where the reader looks for the directory: the offset that is left of its start. */
  function DirectoryField(f: Format, files: seq<Entry>): nat {
    |Concat(LocalParts(f, files))| % 0x1_0000_0000
  }

  lemma EndOf(count: nat, centralSize: nat, centralOffset: nat)
    requires count < 65536
    ensures EndShape(EndRecord(count, centralSize, centralOffset), count, centralOffset % 0x1_0000_0000)
  {
    EndIsReduced(count, centralSize, centralOffset);
    EndReadable(count, centralSize, centralOffset % 0x1_0000_0000);
  }

  lemma EndIsReduced(count: nat, centralSize: nat, centralOffset: nat)
    ensures EndRecord(count, centralSize, centralOffset) ==
            EndRecord(count, centralSize, centralOffset % 0x1_0000_0000)
  {
  }

  /** Whatever the entries, the reader reads as many records as there are from there. */
  lemma ReadsFromField(crc: Crc, files: seq<Entry>)
    requires |files| < 65536
    ensures Read(Archive(crc, files)) ==
            ReadDirectory(RecordsOf(Archive(crc, files)), DirectoryField(StoreFormat(crc), files), |files|)
  {
    var f := StoreFormat(crc);
    var locals, centrals := |Concat(LocalParts(f, files))|, |Concat(CentralParts(f, files))|;
    EndOf(|files|, centrals, locals);
    ReadsAt(Body(f, files), EndRecord(|files|, centrals, locals), |files|, DirectoryField(f, files));
  }

  lemma NoRecord(zip: seq<byte>, at: nat, count: nat)
    requires count > 0 && at + 4 <= |zip| && Get32(zip, at) != CENTRAL
    ensures ReadDirectory(RecordsOf(zip), at, count) == None
  {
    assert RecordsOf(zip)(at) == None;
  }

  /**
   * So an archive whose local records take 2^32 bytes or more is lost too, unless the signature of a directory
   * record happens to stand where its offset has wrapped to, among the local records.
   */
  lemma WrappedDirectoryIsLost(crc: Crc, files: seq<Entry>)
    requires files != [] && |files| < 65536
    requires |Concat(LocalParts(StoreFormat(crc), files))| >= 0x1_0000_0000
    ensures var zip, at := Archive(crc, files), DirectoryField(StoreFormat(crc), files);
            && at + 4 <= |Concat(LocalParts(StoreFormat(crc), files))| <= |zip|
            && (Get32(zip, at) != CENTRAL ==> Read(zip) == None)
  {
    var zip, at := Archive(crc, files), DirectoryField(StoreFormat(crc), files);
    ReadsFromField(crc, files);
    WrapsInside(StoreFormat(crc), files);
    assert |Body(StoreFormat(crc), files)| <= |zip|;
    if Get32(zip, at) != CENTRAL {
      NoRecord(zip, at, |files|);
    }
  }

  lemma WrapsInside(f: Format, files: seq<Entry>)
    requires |Concat(LocalParts(f, files))| >= 0x1_0000_0000
    ensures DirectoryField(f, files) + 4 <= |Concat(LocalParts(f, files))| <= |Body(f, files)|
  {
  }

  lemma SmallOrUnread(zip: seq<byte>, files: seq<Entry>, e: Entry)
    requires e in files && |e.data| >= 0x1_0000_0000
    ensures Read(zip) != Some(files)
  {
    if Read(zip).Some? {
      forall n | ReadRecord(zip, n).Some?
        ensures |ReadRecord(zip, n).value.0.data| < 0x1_0000_0000
      {
        RecordIsSmall(zip, n);
      }
      EntriesAreSmall(RecordsOf(zip), Get32(zip, |zip| - 6), Get16(zip, |zip| - 12));
    }
  }
}
