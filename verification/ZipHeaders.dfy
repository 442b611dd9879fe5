/**
 * Every byte of an archive, at its position: the fields of each local header, each directory header and the end
 * record, with the numbers that APPNOTE.TXT (sections 4.3.7, 4.3.12 and 4.3.16) gives them and not through the
 * constants or the number formats of the writer.
 */
module ZipHeaders {
  import opened Bytes
  import opened Seqs
  import opened ZipStore

  /** The two bytes at a position, the lower first. */
  function Two(t: seq<byte>, at: nat): nat
    requires at + 2 <= |t|
  {
    var low: int, high: int := t[at], t[at + 1];
    low + 256 * high
  }

  /** The four bytes at a position, the lowest first. */
  function Four(t: seq<byte>, at: nat): nat
    requires at + 4 <= |t|
  {
    Two(t, at) + 65536 * Two(t, at + 2)
  }

  /** A stored entry: "PK\3\4", version 2.0, names in UTF-8, no compression, no time; no extra field. */
  predicate LocalAt(t: seq<byte>, at: nat, crc: int, size: nat, nameLength: nat) {
    && at + 30 <= |t|
    && t[at] == 0x50 && t[at + 1] == 0x4b && t[at + 2] == 3 && t[at + 3] == 4
    && Two(t, at + 4) == 20 && Two(t, at + 6) == 2048 && Two(t, at + 8) == 0
    && Two(t, at + 10) == 0 && Two(t, at + 12) == 0
    && Four(t, at + 14) == crc % 0x1_0000_0000
    && Four(t, at + 18) == size % 0x1_0000_0000 && Four(t, at + 22) == size % 0x1_0000_0000
    && Two(t, at + 26) == nameLength && Two(t, at + 28) == 0
  }

  /** The same entry in the directory, "PK\1\2": no extra field, no comment, disk 0, no attributes. */
  predicate CentralAt(t: seq<byte>, at: nat, crc: int, size: nat, nameLength: nat, offset: nat) {
    && at + 46 <= |t|
    && t[at] == 0x50 && t[at + 1] == 0x4b && t[at + 2] == 1 && t[at + 3] == 2
    && Two(t, at + 4) == 20 && Two(t, at + 6) == 20 && Two(t, at + 8) == 2048 && Two(t, at + 10) == 0
    && Two(t, at + 12) == 0 && Two(t, at + 14) == 0
    && Four(t, at + 16) == crc % 0x1_0000_0000
    && Four(t, at + 20) == size % 0x1_0000_0000 && Four(t, at + 24) == size % 0x1_0000_0000
    && Two(t, at + 28) == nameLength && Two(t, at + 30) == 0 && Two(t, at + 32) == 0
    && Two(t, at + 34) == 0 && Two(t, at + 36) == 0 && Four(t, at + 38) == 0
    && Four(t, at + 42) == offset % 0x1_0000_0000
  }

  /** The end record, "PK\5\6": disk 0, all entries on it, no comment. */
  predicate EndAt(t: seq<byte>, at: nat, count: nat, size: nat, offset: nat) {
    && at + 22 == |t|
    && t[at] == 0x50 && t[at + 1] == 0x4b && t[at + 2] == 5 && t[at + 3] == 6
    && Two(t, at + 4) == 0 && Two(t, at + 6) == 0 && Two(t, at + 8) == count && Two(t, at + 10) == count
    && Four(t, at + 12) == size % 0x1_0000_0000 && Four(t, at + 16) == offset % 0x1_0000_0000
    && Two(t, at + 20) == 0
  }

  // ---------- fields ----------

  lemma TwoBytes(n: nat)
    requires n < 65536
    ensures Two(U16(n), 0) == n
  {
    assert ToLittleEndian(n / 256, 1) == [n / 256 % 256];
  }

  lemma LowBytes(n: nat, width: nat)
    requires width >= 2
    ensures Two(ToLittleEndian(n, width), 0) == n % 65536
    ensures ToLittleEndian(n, width)[2..] == ToLittleEndian(n / 65536, width - 2)
  {
    var next := ToLittleEndian(n / 256, width - 1);
    assert next == [n / 256 % 256] + ToLittleEndian(n / 256 / 256, width - 2);
    assert n / 256 / 256 == n / 65536 && n % 65536 == n % 256 + 256 * (n / 256 % 256);
  }

  lemma FourBytes(n: int)
    ensures Four(U32(n), 0) == n % 0x1_0000_0000
  {
    var m := n % 0x1_0000_0000;
    LowBytes(m, 4);
    LowBytes(m / 65536, 2);
    assert U32(n)[2..][0] == U32(n)[2] && U32(n)[2..][1] == U32(n)[3];
  }

  lemma TwoField(h: seq<byte>, i: nat, n: nat)
    requires i + 2 <= |h| && h[i..i + 2] == U16(n) && n < 65536
    ensures Two(h, i) == n
  {
    TwoBytes(n);
    assert h[i] == U16(n)[0] && h[i + 1] == U16(n)[1];
  }

  lemma FourField(h: seq<byte>, i: nat, n: int)
    requires i + 4 <= |h| && h[i..i + 4] == U32(n)
    ensures Four(h, i) == n % 0x1_0000_0000
  {
    FourBytes(n);
    var u := U32(n);
    assert h[i] == u[0] && h[i + 1] == u[1] && h[i + 2] == u[2] && h[i + 3] == u[3];
  }

  lemma Signature(h: seq<byte>, n: nat, kind: nat)
    requires |h| >= 4 && h[0..4] == U32(n) && kind < 256 && n == 0x4b50 + 65536 * kind + 16777216 * (kind + 1)
    requires kind < 255
    ensures h[0] == 0x50 && h[1] == 0x4b && h[2] == kind && h[3] == kind + 1
  {
    FourField(h, 0, n);
    assert Two(h, 0) == 0x4b50 && Two(h, 2) == kind + 256 * (kind + 1);
  }

  // ---------- headers ----------

  /** The fields of a header that is put together from fields of four and of two bytes, as a local header is. */
  lemma LocalSlices<T>(a: seq<T>, b: seq<T>, c: seq<T>, d: seq<T>, e: seq<T>, f: seq<T>, g: seq<T>, h: seq<T>,
                       i: seq<T>, j: seq<T>, k: seq<T>)
    requires |a| == |g| == |h| == |i| == 4
    requires |b| == |c| == |d| == |e| == |f| == |j| == |k| == 2
    ensures var t := a + b + c + d + e + f + g + h + i + j + k;
            && t[0..4] == a && t[4..6] == b && t[6..8] == c && t[8..10] == d && t[10..12] == e && t[12..14] == f
            && t[14..18] == g && t[18..22] == h && t[22..26] == i && t[26..28] == j && t[28..30] == k
  {
  }

  lemma LocalHeaderIs(crc: int, size: nat, nameLength: nat)
    requires nameLength < 65536
    ensures LocalAt(LocalHeader(crc, size, nameLength), 0, crc, size, nameLength)
  {
    var h := LocalHeader(crc, size, nameLength);
    LocalSlices(U32(LOCAL), U16(20), U16(UTF8), U16(0), U16(0), U16(0), U32(crc), U32(size), U32(size),
                U16(nameLength), U16(0));
    Signature(h, LOCAL, 3);
    TwoField(h, 4, 20);
    TwoField(h, 6, UTF8);
    TwoField(h, 8, 0);
    TwoField(h, 10, 0);
    TwoField(h, 12, 0);
    FourField(h, 14, crc);
    FourField(h, 18, size);
    FourField(h, 22, size);
    TwoField(h, 26, nameLength);
    TwoField(h, 28, 0);
  }

  lemma CentralSlices<T>(a: seq<T>, b: seq<T>, c: seq<T>, d: seq<T>, e: seq<T>, f: seq<T>, g: seq<T>, h: seq<T>,
                         i: seq<T>, j: seq<T>, k: seq<T>, l: seq<T>, m: seq<T>, n: seq<T>, o: seq<T>, p: seq<T>,
                         q: seq<T>)
    requires |a| == |h| == |i| == |j| == |p| == |q| == 4
    requires |b| == |c| == |d| == |e| == |f| == |g| == |k| == |l| == |m| == |n| == |o| == 2
    ensures var t := a + b + c + d + e + f + g + h + i + j + k + l + m + n + o + p + q;
            && t[0..4] == a && t[4..6] == b && t[6..8] == c && t[8..10] == d && t[10..12] == e && t[12..14] == f
            && t[14..16] == g && t[16..20] == h && t[20..24] == i && t[24..28] == j && t[28..30] == k
            && t[30..32] == l && t[32..34] == m && t[34..36] == n && t[36..38] == o && t[38..42] == p
            && t[42..46] == q
  {
  }

  lemma CentralHeaderIs(crc: int, size: nat, nameLength: nat, offset: nat)
    requires nameLength < 65536
    ensures CentralAt(CentralHeader(crc, size, nameLength, offset), 0, crc, size, nameLength, offset)
  {
    var h := CentralHeader(crc, size, nameLength, offset);
    CentralSlices(U32(CENTRAL), U16(20), U16(20), U16(UTF8), U16(0), U16(0), U16(0), U32(crc), U32(size), U32(size),
                  U16(nameLength), U16(0), U16(0), U16(0), U16(0), U32(0), U32(offset));
    Signature(h, CENTRAL, 1);
    TwoField(h, 4, 20);
    TwoField(h, 6, 20);
    TwoField(h, 8, UTF8);
    TwoField(h, 10, 0);
    TwoField(h, 12, 0);
    TwoField(h, 14, 0);
    FourField(h, 16, crc);
    FourField(h, 20, size);
    FourField(h, 24, size);
    TwoField(h, 28, nameLength);
    TwoField(h, 30, 0);
    TwoField(h, 32, 0);
    TwoField(h, 34, 0);
    TwoField(h, 36, 0);
    FourField(h, 38, 0);
    FourField(h, 42, offset);
  }

  lemma EndSlices<T>(a: seq<T>, b: seq<T>, c: seq<T>, d: seq<T>, e: seq<T>, f: seq<T>, g: seq<T>, h: seq<T>)
    requires |a| == |f| == |g| == 4 && |b| == |c| == |d| == |e| == |h| == 2
    ensures var t := a + b + c + d + e + f + g + h;
            && t[0..4] == a && t[4..6] == b && t[6..8] == c && t[8..10] == d && t[10..12] == e && t[12..16] == f
            && t[16..20] == g && t[20..22] == h
  {
  }

  lemma EndRecordIs(count: nat, size: nat, offset: nat)
    requires count < 65536
    ensures EndAt(EndRecord(count, size, offset), 0, count, size, offset)
  {
    var h := EndRecord(count, size, offset);
    EndSlices(U32(EOCD), U16(0), U16(0), U16(count), U16(count), U32(size), U32(offset), U16(0));
    Signature(h, EOCD, 5);
    TwoField(h, 4, 0);
    TwoField(h, 6, 0);
    TwoField(h, 8, count);
    TwoField(h, 10, count);
    FourField(h, 12, size);
    FourField(h, 16, offset);
    TwoField(h, 20, 0);
  }

  // ---------- in the archive ----------

  lemma LocalMoves(zip: seq<byte>, at: nat, h: seq<byte>, crc: int, size: nat, nameLength: nat)
    requires Stands(zip, at, h) && LocalAt(h, 0, crc, size, nameLength)
    ensures LocalAt(zip, at, crc, size, nameLength)
  {
    assert forall i: nat | i < |h| :: zip[at + i] == h[i];
  }

  lemma CentralMoves(zip: seq<byte>, at: nat, h: seq<byte>, crc: int, size: nat, nameLength: nat, offset: nat)
    requires Stands(zip, at, h) && CentralAt(h, 0, crc, size, nameLength, offset)
    ensures CentralAt(zip, at, crc, size, nameLength, offset)
  {
    assert forall i: nat | i < |h| :: zip[at + i] == h[i];
  }

  lemma EndMoves(zip: seq<byte>, at: nat, h: seq<byte>, count: nat, size: nat, offset: nat)
    requires Stands(zip, at, h) && |zip| == at + |h| && EndAt(h, 0, count, size, offset)
    ensures EndAt(zip, at, count, size, offset)
  {
    assert forall i: nat | i < |h| :: zip[at + i] == h[i];
  }

  function CentralWeight(files: seq<Entry>): nat {
    if files == [] then 0 else CentralWeight(files[..|files| - 1]) + 46 + |files[|files| - 1].name|
  }

  lemma {:induction false} DirectoryWeighs(f: Format, files: seq<Entry>)
    requires Sized(f)
    ensures |Concat(CentralParts(f, files))| == CentralWeight(files)
  {
    if files != [] {
      var last := |files| - 1;
      DirectoryWeighs(f, files[..last]);
      ConcatMore(CentralParts(f, files[..last]), CentralRecord(f, files[last], Offset(f, files, last)));
    }
  }

  lemma {:induction false} CentralPrefix(f: Format, files: seq<Entry>, i: nat)
    requires i <= |files|
    ensures CentralParts(f, files)[..i] == CentralParts(f, files[..i])
    decreases |files|
  {
    if i < |files| {
      CentralPrefix(f, files[..|files| - 1], i);
      assert files[..|files| - 1][..i] == files[..i];
    } else {
      assert files[..i] == files;
    }
  }

  /** The headers of a format have these fields. */
  ghost predicate Exact(f: Format, crc: Crc) {
    && Sized(f)
    && (forall e: Entry | |e.name| < 65536 :: LocalAt(f.local(e), 0, crc(e.data), |e.data|, |e.name|))
    && (forall e: Entry, offset: nat | |e.name| < 65536 ::
          CentralAt(f.central(e, offset), 0, crc(e.data), |e.data|, |e.name|, offset))
  }

  lemma StoreFormatExact(crc: Crc)
    ensures Exact(StoreFormat(crc), crc)
  {
    var f := StoreFormat(crc);
    StoreFormatSized(crc);
    forall e: Entry | |e.name| < 65536
      ensures LocalAt(f.local(e), 0, crc(e.data), |e.data|, |e.name|)
    {
      LocalHeaderIs(crc(e.data), |e.data|, |e.name|);
    }
    forall e: Entry, offset: nat | |e.name| < 65536
      ensures CentralAt(f.central(e, offset), 0, crc(e.data), |e.data|, |e.name|, offset)
    {
      CentralHeaderIs(crc(e.data), |e.data|, |e.name|, offset);
    }
  }

  /** The local record of an entry, its name and its data. */
  ghost predicate LocalIs(zip: seq<byte>, crc: Crc, e: Entry, at: nat) {
    && LocalAt(zip, at, crc(e.data), |e.data|, |e.name|)
    && Stands(zip, at + 30, e.name) && Stands(zip, at + 30 + |e.name|, e.data)
  }

  /** The directory record of an entry whose local record stands at an offset. */
  ghost predicate CentralIs(zip: seq<byte>, crc: Crc, e: Entry, at: nat, offset: nat) {
    CentralAt(zip, at, crc(e.data), |e.data|, |e.name|, offset) && Stands(zip, at + 46, e.name)
  }

  lemma Positions(f: Format, files: seq<Entry>, i: nat)
    requires i < |files| && Sized(f)
    ensures Offset(f, files, i) == LocalWeight(files[..i])
    ensures DirectoryAt(f, files, i) == LocalWeight(files) + CentralWeight(files[..i])
  {
    PartsWeigh(f, files);
    PartsWeigh(f, files[..i]);
    CentralPrefix(f, files, i);
    DirectoryWeighs(f, files[..i]);
  }

  lemma LocalPartsStand(f: Format, files: seq<Entry>, i: nat, end: seq<byte>)
    requires i < |files|
    ensures Stands(Body(f, files) + end, Offset(f, files, i), f.local(files[i]) + files[i].name + files[i].data)
  {
    var parts, at := LocalParts(f, files), Offset(f, files, i);
    PartStands(parts, i);
    LocalPart(f, files, i);
    StandsLeft(Concat(parts), Concat(CentralParts(f, files)), at, parts[i]);
    StandsLeft(Body(f, files), end, at, parts[i]);
  }

  lemma LocalRecordIs(zip: seq<byte>, crc: Crc, h: seq<byte>, e: Entry, at: nat)
    requires LocalAt(h, 0, crc(e.data), |e.data|, |e.name|) && |h| == 30 && Stands(zip, at, h + e.name + e.data)
    ensures LocalIs(zip, crc, e, at)
  {
    StandsInside(zip, at, h, e.name, e.data);
    LocalMoves(zip, at, h, crc(e.data), |e.data|, |e.name|);
  }

  lemma CentralRecordIs(zip: seq<byte>, crc: Crc, h: seq<byte>, e: Entry, at: nat, offset: nat)
    requires CentralAt(h, 0, crc(e.data), |e.data|, |e.name|, offset) && |h| == 46 && Stands(zip, at, h + e.name)
    ensures CentralIs(zip, crc, e, at, offset)
  {
    Empty(h + e.name);
    StandsInside(zip, at, h, e.name, []);
    CentralMoves(zip, at, h, crc(e.data), |e.data|, |e.name|, offset);
  }

  lemma EndIs(zip: seq<byte>, h: seq<byte>, at: nat, count: nat, size: nat, offset: nat)
    requires EndAt(h, 0, count, size, offset) && Stands(zip, at, h) && |zip| == at + 22
    ensures EndAt(zip, at, count, size, offset)
  {
    EndMoves(zip, at, h, count, size, offset);
  }

  /** Where directory record i starts. */
  function Place(files: seq<Entry>, i: nat): nat
    requires i <= |files|
  {
    LocalWeight(files) + CentralWeight(files[..i])
  }

  /** All records and the end record of an archive in a format stand where the weights say. */
  ghost predicate Placed(zip: seq<byte>, f: Format, files: seq<Entry>, end: seq<byte>) {
    && (forall i: nat | i < |files| ::
          && Stands(zip, LocalWeight(files[..i]), LocalRecord(f, files[i]))
          && Stands(zip, Place(files, i), CentralRecord(f, files[i], LocalWeight(files[..i]))))
    && Stands(zip, Place(files, |files|), end) && |zip| == Place(files, |files|) + |end|
  }

  lemma RecordsPlaced(f: Format, files: seq<Entry>, i: nat, end: seq<byte>)
    requires Sized(f) && i < |files|
    ensures Stands(Body(f, files) + end, LocalWeight(files[..i]), LocalRecord(f, files[i]))
    ensures Stands(Body(f, files) + end, Place(files, i), CentralRecord(f, files[i], LocalWeight(files[..i])))
  {
    Positions(f, files, i);
    LocalPartsStand(f, files, i, end);
    CentralEntryStands(f, files, i, end);
    CentralPart(f, files, i);
  }

  lemma BodyPlaced(f: Format, files: seq<Entry>, end: seq<byte>)
    requires Sized(f)
    ensures Placed(Body(f, files) + end, f, files, end)
  {
    var zip := Body(f, files) + end;
    forall i: nat | i < |files|
      ensures Stands(zip, LocalWeight(files[..i]), LocalRecord(f, files[i]))
      ensures Stands(zip, Place(files, i), CentralRecord(f, files[i], LocalWeight(files[..i])))
    {
      RecordsPlaced(f, files, i, end);
    }
    EndPlaced(f, files, end);
  }

  lemma EndPlaced(f: Format, files: seq<Entry>, end: seq<byte>)
    requires Sized(f)
    ensures var zip := Body(f, files) + end;
            Stands(zip, Place(files, |files|), end) && |zip| == Place(files, |files|) + |end|
  {
    assert files[..|files|] == files;
    BodyWeighs(f, files);
    Cut(Body(f, files), end);
  }

  lemma BodyWeighs(f: Format, files: seq<Entry>)
    requires Sized(f)
    ensures |Concat(LocalParts(f, files))| == LocalWeight(files)
    ensures |Concat(CentralParts(f, files))| == CentralWeight(files)
    ensures |Body(f, files)| == LocalWeight(files) + CentralWeight(files)
  {
    PartsWeigh(f, files);
    DirectoryWeighs(f, files);
  }

  lemma EndOfArchive(crc: Crc, files: seq<Entry>) returns (end: seq<byte>)
    requires |files| < 65536
    ensures Archive(crc, files) == Body(StoreFormat(crc), files) + end && |end| == 22
    ensures EndAt(end, 0, |files|, CentralWeight(files), LocalWeight(files))
  {
    end := EndRecord(|files|, CentralWeight(files), LocalWeight(files));
    StoreFormatSized(crc);
    BodyWeighs(StoreFormat(crc), files);
    EndRecordIs(|files|, CentralWeight(files), LocalWeight(files));
  }

  /** What stands where, in an archive of these entries. */
  ghost predicate Fields(zip: seq<byte>, crc: Crc, files: seq<Entry>) {
    && (forall i: nat | i < |files| :: LocalIs(zip, crc, files[i], LocalWeight(files[..i])))
    && (forall i: nat | i < |files| :: CentralIs(zip, crc, files[i], Place(files, i), LocalWeight(files[..i])))
    && EndAt(zip, Place(files, |files|), |files|, CentralWeight(files), LocalWeight(files))
  }

  lemma FieldsOf(zip: seq<byte>, f: Format, crc: Crc, files: seq<Entry>, end: seq<byte>)
    requires Exact(f, crc) && NamesFit(files) && Placed(zip, f, files, end) && |end| == 22
    requires EndAt(end, 0, |files|, CentralWeight(files), LocalWeight(files))
    ensures Fields(zip, crc, files)
  {
    forall i: nat | i < |files|
      ensures LocalIs(zip, crc, files[i], LocalWeight(files[..i]))
      ensures CentralIs(zip, crc, files[i], Place(files, i), LocalWeight(files[..i]))
    {
      var e, offset := files[i], LocalWeight(files[..i]);
      LocalRecordIs(zip, crc, f.local(e), e, offset);
      CentralRecordIs(zip, crc, f.central(e, offset), e, Place(files, i), offset);
    }
    EndIs(zip, end, Place(files, |files|), |files|, CentralWeight(files), LocalWeight(files));
  }

  /** Main result: what stands where in every archive, to the last byte; by TotalSize nothing else stands in it. */
  lemma EveryField(crc: Crc, files: seq<Entry>)
    requires NamesFit(files) && |files| < 65536
    ensures Fields(Archive(crc, files), crc, files)
  {
    var end := EndOfArchive(crc, files);
    StoreFormatExact(crc);
    BodyPlaced(StoreFormat(crc), files, end);
    FieldsOf(Archive(crc, files), StoreFormat(crc), crc, files, end);
  }
}
