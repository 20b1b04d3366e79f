/** A writer of GUID partition tables that knows nothing of the reader: the layouts of the protective
    MBR, the header and the entry as chapter 5 of UEFI 2.11 gives them.  What it prints, the reader
    decodes to what was printed. */
module GptPrinter {
  import opened Bytes
  import opened Gpt
  import opened GptReader

  /** The name field of an entry, which the reader skips. */
  type Name = s: Bytes | |s| == 72 witness Zeros(72)

  predicate Fits64(v: int) {
    0 <= v < 0x1_0000_0000_0000_0000
  }

  predicate Fits32(v: int) {
    0 <= v < 0x1_0000_0000
  }

  // Entries (section 5.3.3)

  predicate RowFits(p: Part) {
    p.number >= 1 && Fits64(p.start) && Fits64(p.end) && Fits64(p.attributes)
  }

  /** The bytes of one entry. */
  function RowBytes(p: Part, name: Name, entry: nat): (r: Bytes)
    requires RowFits(p) && entry >= 128
    ensures |r| == entry
  {
    ToLe(p.typeGuid, 16) + ToLe(p.partGuid, 16) + ToLe(p.start, 8) + ToLe(p.end, 8) + ToLe(p.attributes, 8)
    + name + Zeros(entry - 128)
  }

  lemma RowSlices(p: Part, name: Name, entry: nat)
    requires RowFits(p) && entry >= 128
    ensures var r := RowBytes(p, name, entry);
            && r[0..16] == ToLe(p.typeGuid, 16) && r[16..32] == ToLe(p.partGuid, 16)
            && r[32..40] == ToLe(p.start, 8) && r[40..48] == ToLe(p.end, 8) && r[48..56] == ToLe(p.attributes, 8)
            && r[56..128] == name && r[128..] == Zeros(entry - 128)
  {
    hide ToLe;
  }

  /** The reader decodes what was printed, whatever the name. */
  lemma RowReadsBack(p: Part, name: Name, entry: nat)
    requires RowFits(p) && entry >= 128
    ensures var r := RowBytes(p, name, entry);
            && PartOf(r, p.number - 1) == p
            && (Occupied(r) <==> p.typeGuid != 0)
            && AllZero(r[128..])
  {
    hide ToLe, RowBytes;
    RowSlices(p, name, entry);
    Pow256Values();
    LeOfToLe(p.typeGuid, 16);
    LeOfToLe(p.partGuid, 16);
    LeOfToLe(p.start, 8);
    LeOfToLe(p.end, 8);
    LeOfToLe(p.attributes, 8);
    var r := RowBytes(p, name, entry);
    assert r[..16] == r[0..16];
    ZeroExactly(r[..16]);
  }

  lemma {:induction false} ZeroExactly(s: Bytes)
    ensures AllZero(s) <==> Le(s) == 0
  {
    if s != [] {
      ZeroExactly(s[1..]);
      assert forall i :: 0 <= i < |s| - 1 ==> s[1..][i] == s[i + 1];
      if AllZero(s[1..]) && s[0] == 0 {
        assert forall i :: 1 <= i < |s| ==> s[i] == s[1..][i - 1];
      }
    }
  }

  /** An entry without extension bytes is nothing but its decoded fields and its name. */
  lemma RowIsPrinted(row: Bytes, n: nat)
    requires |row| >= 128 && AllZero(row[128..])
    ensures RowFits(PartOf(row, n))
    ensures row == RowBytes(PartOf(row, n), row[56..128], |row|)
  {
    hide ToLe;
    ToLeOfLe(row[0..16]);
    ToLeOfLe(row[16..32]);
    ToLeOfLe(row[32..40]);
    ToLeOfLe(row[40..48]);
    ToLeOfLe(row[48..56]);
    assert row[128..] == Zeros(|row| - 128);
    RowSlices(PartOf(row, n), row[56..128], |row|);
    hide RowBytes, PartOf;
    SevenPieces(row);
    SevenPieces(RowBytes(PartOf(row, n), row[56..128], |row|));
  }

  lemma SevenPieces(r: Bytes)
    requires |r| >= 128
    ensures r == r[0..16] + r[16..32] + r[32..40] + r[40..48] + r[48..56] + r[56..128] + r[128..]
  {
  }

  // The array

  function PartAt(parts: seq<Part>, number: int): (r: Option<Part>)
    ensures r.Some? ==> r.value in parts && r.value.number == number
    ensures r.None? ==> forall p :: p in parts ==> p.number != number
  {
    if parts == [] then None
    else if parts[0].number == number then Some(parts[0])
    else PartAt(parts[1..], number)
  }

  predicate RowsFit(parts: seq<Part>) {
    forall p :: p in parts ==> RowFits(p)
  }

  /** Slot n, counted from 0: the row of that number, or zeros. */
  function SlotBytes(parts: seq<Part>, names: int -> Name, entry: nat, n: nat): (r: Bytes)
    requires RowsFit(parts) && entry >= 128
    ensures |r| == entry
  {
    match PartAt(parts, n + 1)
    case Some(p) => RowBytes(p, names(n + 1), entry)
    case None => Zeros(entry)
  }

  /** The first n slots. */
  function ArrayBytes(parts: seq<Part>, names: int -> Name, entry: nat, n: nat): (r: Bytes)
    requires RowsFit(parts) && EntrySizeOk(entry)
    ensures |r| == EntrySpan(n, entry)
  {
    if n == 0 then [] else ArrayBytes(parts, names, entry, n - 1) + SlotBytes(parts, names, entry, n - 1)
  }

  lemma {:induction false} ArrayRow(
      parts: seq<Part>, names: int -> Name, entry: nat, n: nat, rest: Bytes, k: nat)
    requires RowsFit(parts) && EntrySizeOk(entry) && k < n
    ensures Holds(ArrayBytes(parts, names, entry, n) + rest, entry, k + 1)
    ensures Row(ArrayBytes(parts, names, entry, n) + rest, entry, k) == SlotBytes(parts, names, entry, k)
  {
    hide SlotBytes, RowsFit;
    var before, last := ArrayBytes(parts, names, entry, n - 1), SlotBytes(parts, names, entry, n - 1);
    assert before + last + rest == before + (last + rest);
    if k < n - 1 {
      ArrayRow(parts, names, entry, n - 1, last + rest, k);
    }
  }

  /** The reader finds in a printed array precisely the rows it was printed from. */
  lemma ArrayReadsBack(parts: seq<Part>, names: int -> Name, entry: nat, count: nat, rest: Bytes)
    requires RowsFit(parts) && EntrySizeOk(entry)
    requires forall i, j :: 0 <= i < j < |parts| ==> parts[i].number != parts[j].number
    requires forall p :: p in parts ==> p.number <= count && p.typeGuid != 0
    ensures var table := ArrayBytes(parts, names, entry, count) + rest;
            && Holds(table, entry, count)
            && ExtensionsClear(table, entry, count)
            && forall p :: p in Entries(table, entry, count) <==> p in parts
  {
    hide Entries, Row, Occupied, PartOf, EntrySpan;
    var table := ArrayBytes(parts, names, entry, count) + rest;
    EntriesLemma(table, entry, count);
    forall n: nat | n < count
      ensures Holds(table, entry, n + 1)
      ensures Occupied(Row(table, entry, n)) <==> PartAt(parts, n + 1).Some?
      ensures PartAt(parts, n + 1).Some? ==> PartOf(Row(table, entry, n), n) == PartAt(parts, n + 1).value
      ensures Occupied(Row(table, entry, n)) ==> AllZero(Row(table, entry, n)[128..])
    {
      ArrayRow(parts, names, entry, count, rest, n);
      SlotReadsBack(parts, names, entry, n);
    }
    forall p ensures p in Entries(table, entry, count) <==> p in parts {
      if p in parts {
        var i :| 0 <= i < |parts| && parts[i] == p;
        var found, k: nat := PartAt(parts, p.number), p.number - 1;
        assert found.value == p;
        ArrayRow(parts, names, entry, count, rest, k);
        SlotReadsBack(parts, names, entry, k);
        assert SlotHolds(table, entry, p);
      }
    }
  }

  lemma SlotReadsBack(parts: seq<Part>, names: int -> Name, entry: nat, n: nat)
    requires RowsFit(parts) && entry >= 128
    requires forall p :: p in parts ==> p.typeGuid != 0
    ensures var row, part := SlotBytes(parts, names, entry, n), PartAt(parts, n + 1);
            && (Occupied(row) <==> part.Some?)
            && (part.Some? ==> PartOf(row, n) == part.value)
            && (Occupied(row) ==> AllZero(row[128..]))
  {
    hide RowBytes, PartOf;
    if PartAt(parts, n + 1).Some? {
      RowReadsBack(PartAt(parts, n + 1).value, names(n + 1), entry);
    }
  }

  // Headers (section 5.3.2)

  datatype Header = Header(
    headerBytes: nat, lba: nat, alternate: nat, first: nat, last: nat, diskGuid: Guid,
    arrayLba: nat, count: nat, entry: nat, arrayCrc: nat)

  predicate HeaderFits(h: Header, size: nat) {
    && 92 <= h.headerBytes <= size < 0x1_0000_0000
    && Fits64(h.lba) && Fits64(h.alternate) && Fits64(h.first) && Fits64(h.last) && Fits64(h.arrayLba)
    && 1 <= h.count <= 4096 && EntrySizeOk(h.entry) && Fits32(h.arrayCrc)
  }

  function HeaderFront(h: Header, crc: nat): (r: Bytes)
    ensures |r| == 40
  {
    [0x45, 0x46, 0x49, 0x20, 0x50, 0x41, 0x52, 0x54]
    + ToLe(0x10000, 4) + ToLe(h.headerBytes, 4) + ToLe(crc, 4) + ToLe(0, 4) + ToLe(h.lba, 8) + ToLe(h.alternate, 8)
  }

  function HeaderBack(h: Header): (r: Bytes)
    ensures |r| == 52
  {
    ToLe(h.first, 8) + ToLe(h.last, 8) + ToLe(h.diskGuid, 16) + ToLe(h.arrayLba, 8)
    + ToLe(h.count, 4) + ToLe(h.entry, 4) + ToLe(h.arrayCrc, 4)
  }

  function HeaderWith(h: Header, crc: nat, size: nat): (r: Bytes)
    requires size >= 92
    ensures |r| == size
  {
    HeaderFront(h, crc) + HeaderBack(h) + Zeros(size - 92)
  }

  /** The header sector: its own CRC is taken with zeros in its place. */
  function HeaderBytes(o: Oracles, h: Header, size: nat): (r: Bytes)
    requires HeaderFits(h, size)
    ensures |r| == size
  {
    HeaderWith(h, o.Crc(HeaderWith(h, 0, size)[..h.headerBytes]), size)
  }

  lemma FrontSlices(h: Header, crc: nat)
    ensures var r := HeaderFront(h, crc);
            && r[0..8] == SIGNATURE && r[8..12] == ToLe(0x10000, 4) && r[12..16] == ToLe(h.headerBytes, 4)
            && r[16..20] == ToLe(crc, 4) && r[20..24] == ToLe(0, 4)
            && r[24..32] == ToLe(h.lba, 8) && r[32..40] == ToLe(h.alternate, 8)
  {
    hide ToLe;
  }

  lemma BackSlices(h: Header)
    ensures var r := HeaderBack(h);
            && r[0..8] == ToLe(h.first, 8) && r[8..16] == ToLe(h.last, 8) && r[16..32] == ToLe(h.diskGuid, 16)
            && r[32..40] == ToLe(h.arrayLba, 8) && r[40..44] == ToLe(h.count, 4)
            && r[44..48] == ToLe(h.entry, 4) && r[48..52] == ToLe(h.arrayCrc, 4)
  {
    hide ToLe;
    var r, front := HeaderBack(h), HeaderBack(h)[..48];
    assert r == front + ToLe(h.arrayCrc, 4);
    assert r[48..52] == (front + ToLe(h.arrayCrc, 4))[48..52] == ToLe(h.arrayCrc, 4);
  }

  lemma WithSlices(h: Header, crc: nat, size: nat)
    requires size >= 92
    ensures var r := HeaderWith(h, crc, size);
            && r[0..8] == SIGNATURE && r[8..12] == ToLe(0x10000, 4) && r[12..16] == ToLe(h.headerBytes, 4)
            && r[16..20] == ToLe(crc, 4) && r[20..24] == ToLe(0, 4)
            && r[24..32] == ToLe(h.lba, 8) && r[32..40] == ToLe(h.alternate, 8)
            && r[40..48] == ToLe(h.first, 8) && r[48..56] == ToLe(h.last, 8) && r[56..72] == ToLe(h.diskGuid, 16)
            && r[72..80] == ToLe(h.arrayLba, 8) && r[80..84] == ToLe(h.count, 4)
            && r[84..88] == ToLe(h.entry, 4) && r[88..92] == ToLe(h.arrayCrc, 4)
            && r[92..] == Zeros(size - 92)
  {
    hide ToLe, HeaderFront, HeaderBack;
    FrontSlices(h, crc);
    BackSlices(h);
    var r, f, b := HeaderWith(h, crc, size), HeaderFront(h, crc), HeaderBack(h);
    forall x, y | 0 <= x <= y <= 40 ensures r[x..y] == f[x..y] {
    }
    forall x, y | 0 <= x <= y <= 52 ensures r[40 + x..40 + y] == b[x..y] {
    }
    assert r[40 + 0..40 + 8] == b[0..8] && r[40 + 8..40 + 16] == b[8..16] && r[40 + 16..40 + 32] == b[16..32];
    assert r[40 + 32..40 + 40] == b[32..40] && r[40 + 40..40 + 44] == b[40..44];
    assert r[40 + 44..40 + 48] == b[44..48] && r[40 + 48..40 + 52] == b[48..52];
  }

  /** The fields of a header sector, as the reader sees them. */
  function HeaderOf(raw: Bytes): Header
    requires |raw| >= 512
  {
    Header(U32(raw, 12), U64(raw, 24), U64(raw, 32), U64(raw, 40), U64(raw, 48), U128(raw, 56),
           U64(raw, 72), U32(raw, 80), U32(raw, 84), U32(raw, 88))
  }

  /** A printed header is accepted, and each field reads back. */
  lemma HeaderReadsBack(o: Oracles, h: Header, size: nat)
    requires size >= 512 && HeaderFits(h, size)
    ensures var raw := HeaderBytes(o, h, size);
            && HeaderOk(o, raw, h.lba, h.alternate)
            && HeaderOf(raw) == h
  {
    hide HeaderWith, ToLe, HeaderCrc;
    var crc := o.Crc(HeaderWith(h, 0, size)[..h.headerBytes]);
    WithSlices(h, crc, size);
    FieldsReadBack(h, crc, size);
    CrcOfPrinted(o, h, crc, size);
  }

  lemma FieldsReadBack(h: Header, crc: nat, size: nat)
    requires size >= 512 && HeaderFits(h, size) && Fits32(crc)
    ensures var raw := HeaderWith(h, crc, size);
            U32(raw, 8) == 0x10000 && U32(raw, 16) == crc && U32(raw, 20) == 0 && HeaderOf(raw) == h
  {
    hide HeaderWith, ToLe;
    WithSlices(h, crc, size);
    Pow256Values();
    LeOfToLe(0x10000, 4);
    LeOfToLe(h.headerBytes, 4);
    LeOfToLe(crc, 4);
    LeOfToLe(0, 4);
    LeOfToLe(h.lba, 8);
    LeOfToLe(h.alternate, 8);
    LeOfToLe(h.first, 8);
    LeOfToLe(h.last, 8);
    LeOfToLe(h.diskGuid, 16);
    LeOfToLe(h.arrayLba, 8);
    LeOfToLe(h.count, 4);
    LeOfToLe(h.entry, 4);
    LeOfToLe(h.arrayCrc, 4);
  }

  lemma CrcOfPrinted(o: Oracles, h: Header, crc: nat, size: nat)
    requires size >= 512 && HeaderFits(h, size) && Fits32(crc)
    ensures U32(HeaderWith(h, crc, size), 12) == h.headerBytes
    ensures HeaderCrc(o, HeaderWith(h, crc, size)) == o.Crc(HeaderWith(h, 0, size)[..h.headerBytes])
  {
    hide ToLe, HeaderFront, HeaderBack;
    FieldsReadBack(h, crc, size);
    CrcZeroed(h, crc, size);
  }

  lemma CrcZeroed(h: Header, crc: nat, size: nat)
    requires size >= 92
    ensures Splice(HeaderWith(h, crc, size), 16, Zeros(4)) == HeaderWith(h, 0, size)
  {
    hide HeaderBack;
    assert ToLe(0, 4) == Zeros(4);
    FrontZeroed(h, crc);
    hide HeaderFront, ToLe;
  }

  lemma FrontZeroed(h: Header, crc: nat)
    ensures Splice(HeaderFront(h, crc), 16, Zeros(4)) == HeaderFront(h, 0)
  {
    assert ToLe(0, 4) == Zeros(4);
    hide ToLe;
  }

  /** The header check accepts precisely the sectors that are printed headers of that place. */
  lemma HeaderExactly(o: Oracles, raw: Bytes, lba: nat, alternate: nat)
    requires 512 <= |raw| < 0x1_0000_0000
    ensures HeaderOk(o, raw, lba, alternate) <==>
              && HeaderFits(HeaderOf(raw), |raw|)
              && raw == HeaderBytes(o, HeaderOf(raw), |raw|)
              && HeaderOf(raw).lba == lba && HeaderOf(raw).alternate == alternate
  {
    hide HeaderBytes, HeaderCrc;
    if HeaderOk(o, raw, lba, alternate) {
      HeaderIsPrinted(o, raw, lba, alternate);
    }
    if HeaderFits(HeaderOf(raw), |raw|) && raw == HeaderBytes(o, HeaderOf(raw), |raw|) {
      HeaderReadsBack(o, HeaderOf(raw), |raw|);
    }
  }

  lemma HeaderIsPrinted(o: Oracles, raw: Bytes, lba: nat, alternate: nat)
    requires 512 <= |raw| < 0x1_0000_0000 && HeaderOk(o, raw, lba, alternate)
    ensures HeaderFits(HeaderOf(raw), |raw|) && raw == HeaderBytes(o, HeaderOf(raw), |raw|)
  {
    hide HeaderWith;
    var h, crc := HeaderOf(raw), U32(raw, 16);
    PiecesArePrinted(raw);
    CrcOfPrinted(o, h, crc, |raw|);
  }

  lemma PiecesArePrinted(raw: Bytes)
    requires |raw| >= 512 && raw[0..8] == SIGNATURE && U32(raw, 8) == 0x10000 && U32(raw, 20) == 0
    requires AllZero(raw[92..])
    ensures raw == HeaderWith(HeaderOf(raw), U32(raw, 16), |raw|)
  {
    hide ToLe, HeaderWith;
    ToLeOfLe(raw[8..12]);
    ToLeOfLe(raw[12..16]);
    ToLeOfLe(raw[16..20]);
    ToLeOfLe(raw[20..24]);
    ToLeOfLe(raw[24..32]);
    ToLeOfLe(raw[32..40]);
    ToLeOfLe(raw[40..48]);
    ToLeOfLe(raw[48..56]);
    ToLeOfLe(raw[56..72]);
    ToLeOfLe(raw[72..80]);
    ToLeOfLe(raw[80..84]);
    ToLeOfLe(raw[84..88]);
    ToLeOfLe(raw[88..92]);
    WithSlices(HeaderOf(raw), U32(raw, 16), |raw|);
    SamePieces(raw, HeaderWith(HeaderOf(raw), U32(raw, 16), |raw|));
  }

  /** Two sectors that agree in every field of the header agree. */
  lemma SamePieces(a: Bytes, b: Bytes)
    requires |a| == |b| >= 92
    requires a[0..8] == b[0..8] && a[8..12] == b[8..12] && a[12..16] == b[12..16] && a[16..20] == b[16..20]
    requires a[20..24] == b[20..24] && a[24..32] == b[24..32] && a[32..40] == b[32..40] && a[40..48] == b[40..48]
    requires a[48..56] == b[48..56] && a[56..72] == b[56..72] && a[72..80] == b[72..80] && a[80..84] == b[80..84]
    requires a[84..88] == b[84..88] && a[88..92] == b[88..92] && a[92..] == b[92..]
    ensures a == b
  {
    JoinPieces(a, b, 8, 12);
    JoinPieces(a, b, 12, 16);
    JoinPieces(a, b, 16, 20);
    JoinPieces(a, b, 20, 24);
    JoinPieces(a, b, 24, 32);
    JoinPieces(a, b, 32, 40);
    JoinPieces(a, b, 40, 48);
    JoinPieces(a, b, 48, 56);
    JoinPieces(a, b, 56, 72);
    JoinPieces(a, b, 72, 80);
    JoinPieces(a, b, 80, 84);
    JoinPieces(a, b, 84, 88);
    JoinPieces(a, b, 88, 92);
    assert a == a[0..92] + a[92..] && b == b[0..92] + b[92..];
  }

  lemma JoinPieces(a: Bytes, b: Bytes, x: nat, y: nat)
    requires x <= y <= |a| == |b| && a[0..x] == b[0..x] && a[x..y] == b[x..y]
    ensures a[0..y] == b[0..y]
  {
    assert a[0..y] == a[0..x] + a[x..y] && b[0..y] == b[0..x] + b[x..y];
  }

  // Protective MBR (section 5.2.3)

  type Boot = s: Bytes | |s| == 446 witness Zeros(446)
  type Chs = s: Bytes | |s| == 3 witness Zeros(3)

  /** What a protective MBR leaves open: boot code, record, boot flag and the two CHS addresses. */
  datatype Mbr = Mbr(boot: Boot, record: nat, active: bool, from: Chs, to: Chs)

  /** The record of the whole disk, as far as 32 bits can count it. */
  function RecordBytes(d: Mbr, total: nat): (r: Bytes)
    requires total >= 1
    ensures |r| == 16
  {
    [if d.active then 0x80 else 0] + d.from + [0xee] + d.to
    + ToLe(1, 4) + ToLe(if total - 1 < 0xffff_ffff then total - 1 else 0xffff_ffff, 4)
  }

  function MbrBytes(d: Mbr, total: nat, size: nat): (r: Bytes)
    requires d.record < 4 && total >= 1 && size >= 512
    ensures |r| == size
  {
    d.boot + Zeros(16 * d.record) + RecordBytes(d, total) + Zeros(48 - 16 * d.record) + [0x55, 0xaa] + Zeros(size - 512)
  }

  lemma RecordFields(d: Mbr, total: nat)
    requires total >= 1
    ensures var r := RecordBytes(d, total);
            && r[0] == (if d.active then 0x80 else 0) && r[1..4] == d.from && r[4] == 0xee && r[5..8] == d.to
            && r[8..12] == ToLe(1, 4) && r[12..16] == ToLe(Min(total - 1, 0xffff_ffff), 4)
            && U32(r, 8) == 1 && U32(r, 12) == Min(total - 1, 0xffff_ffff)
  {
    Pow256Values();
    LeOfToLe(1, 4);
    LeOfToLe(Min(total - 1, 0xffff_ffff), 4);
    hide ToLe;
  }

  lemma MbrPieces(d: Mbr, total: nat, size: nat)
    requires d.record < 4 && total >= 1 && size >= 512
    ensures var r := MbrBytes(d, total, size);
            && r[..446] == d.boot && r[510] == 0x55 && r[511] == 0xaa && r[512..] == Zeros(size - 512)
            && MbrRecord(r, d.record) == RecordBytes(d, total)
            && forall k :: 0 <= k < 4 && k != d.record ==> AllZero(MbrRecord(r, k))
  {
    hide RecordBytes;
  }

  /** A printed MBR is accepted. */
  lemma MbrReadsBack(d: Mbr, total: nat, size: nat)
    requires d.record < 4 && total >= 1 && size >= 512
    ensures MbrOk(MbrBytes(d, total, size), total)
  {
    hide MbrBytes, RecordBytes, MbrRecord;
    MbrPieces(d, total, size);
    RecordFields(d, total);
    assert ProtectiveRecord(MbrBytes(d, total, size), d.record, total);
  }

  /** The MBR check accepts precisely the sectors that are printed protective MBRs of this disk. */
  lemma MbrExactly(mbr: Bytes, total: nat)
    requires |mbr| >= 512 && total >= 1
    ensures MbrOk(mbr, total) <==> exists d: Mbr :: d.record < 4 && mbr == MbrBytes(d, total, |mbr|)
  {
    hide MbrBytes, ProtectiveRecord;
    if MbrOk(mbr, total) {
      var n :| 0 <= n < 4 && ProtectiveRecord(mbr, n, total);
      MbrIsPrinted(mbr, n, total);
    }
    forall d: Mbr | d.record < 4 && mbr == MbrBytes(d, total, |mbr|) ensures MbrOk(mbr, total) {
      MbrReadsBack(d, total, |mbr|);
    }
  }

  function MbrOf(mbr: Bytes, n: nat): (d: Mbr)
    requires |mbr| >= 512 && n < 4
  {
    var r := MbrRecord(mbr, n);
    Mbr(mbr[..446], n, r[0] == 0x80, r[1..4], r[5..8])
  }

  lemma MbrIsPrinted(mbr: Bytes, n: nat, total: nat)
    requires |mbr| >= 512 && total >= 1 && n < 4 && ProtectiveRecord(mbr, n, total)
    requires mbr[510] == 0x55 && mbr[511] == 0xaa && AllZero(mbr[512..])
    ensures mbr == MbrBytes(MbrOf(mbr, n), total, |mbr|)
  {
    hide RecordBytes, MbrBytes;
    var d := MbrOf(mbr, n);
    RecordIsPrinted(mbr, n, total);
    MbrPieces(d, total, |mbr|);
    SameSectors(mbr, MbrBytes(d, total, |mbr|), n);
  }

  lemma RecordIsPrinted(mbr: Bytes, n: nat, total: nat)
    requires |mbr| >= 512 && total >= 1 && n < 4 && ProtectiveRecord(mbr, n, total)
    ensures MbrRecord(mbr, n) == RecordBytes(MbrOf(mbr, n), total)
  {
    var r, d := MbrRecord(mbr, n), MbrOf(mbr, n);
    ToLeOfLe(r[8..12]);
    ToLeOfLe(r[12..16]);
    RecordFields(d, total);
    SameRecords(r, RecordBytes(d, total));
  }

  lemma SameRecords(a: Bytes, b: Bytes)
    requires |a| == |b| == 16
    requires a[0] == b[0] && a[1..4] == b[1..4] && a[4] == b[4] && a[5..8] == b[5..8]
    requires a[8..12] == b[8..12] && a[12..16] == b[12..16]
    ensures a == b
  {
    assert a == [a[0]] + a[1..4] + [a[4]] + a[5..8] + a[8..12] + a[12..16];
    assert b == [b[0]] + b[1..4] + [b[4]] + b[5..8] + b[8..12] + b[12..16];
  }

  lemma SameSectors(a: Bytes, b: Bytes, n: nat)
    requires |a| == |b| >= 512 && n < 4
    requires a[..446] == b[..446] && a[510] == b[510] && a[511] == b[511]
    requires AllZero(a[512..]) && AllZero(b[512..])
    requires MbrRecord(a, n) == MbrRecord(b, n)
    requires forall k :: 0 <= k < 4 && k != n ==> AllZero(MbrRecord(a, k)) && AllZero(MbrRecord(b, k))
    ensures a == b
  {
    forall k: nat | k < 4 ensures MbrRecord(a, k) == MbrRecord(b, k) {
    }
    var one, two := a[446..510], b[446..510];
    assert one == MbrRecord(a, 0) + MbrRecord(a, 1) + MbrRecord(a, 2) + MbrRecord(a, 3);
    assert two == MbrRecord(b, 0) + MbrRecord(b, 1) + MbrRecord(b, 2) + MbrRecord(b, 3);
    hide MbrRecord;
    assert a == a[..446] + one + [a[510], a[511]] + a[512..];
    assert b == b[..446] + two + [b[510], b[511]] + b[512..];
    assert a[512..] == b[512..];
  }

  // The whole table

  /** The inventories that fit into the fields of a table. */
  ghost predicate Printable(s: Snapshot) {
    DeviceOk(s.device) && GeometryOk(s) && forall p :: p in s.parts ==> RowOk(s, p)
  }

  /** One header of the inventory: of either copy, with the CRC of the array. */
  function HeaderFor(s: Snapshot, lba: nat, alternate: nat, arrayLba: nat, arrayCrc: nat): (h: Header)
    requires Printable(s)
    ensures lba <= s.device.size && alternate <= s.device.size && arrayLba <= s.device.size && Fits32(arrayCrc)
            ==> HeaderFits(h, s.sector)
  {
    Header(92, lba, alternate, s.first, s.last, s.diskGuid, arrayLba, s.count, s.entry, arrayCrc)
  }

  /** The used part of the entry array. */
  function ArrayOf(s: Snapshot, names: int -> Name): (r: Bytes)
    requires Printable(s)
    ensures |r| == EntrySpan(s.count, s.entry)
  {
    assert RowsFit(s.parts);
    ArrayBytes(s.parts, names, s.entry, s.count)
  }

  /** The five regions of a table that shows the inventory. */
  function PrintTable(o: Oracles, s: Snapshot, names: int -> Name, d: Mbr): (m: Metadata)
    requires Printable(s) && d.record < 4
    ensures Shaped(m, s.sector) && EntryCount(m) == s.count && EntryBytes(m) == s.entry
  {
    var last := SectorsIn(s.device.size, s.sector) - 1;
    var array_ := ArrayOf(s, names);
    var region := array_ + Zeros(Scale(Reserved(s.count, s.entry, s.sector), s.sector) - |array_|);
    var primary, backup :=
      HeaderFor(s, 1, last, s.primaryLba, o.Crc(array_)), HeaderFor(s, last, 1, s.backupLba, o.Crc(array_));
    HeaderReadsBack(o, primary, s.sector);
    Metadata(MbrBytes(d, last + 1, s.sector), HeaderBytes(o, primary, s.sector), region, region,
             HeaderBytes(o, backup, s.sector))
  }

  /** Two headers of one table agree in what both copies share. */
  lemma HeadersAgree(o: Oracles, a: Header, b: Header, size: nat)
    requires size >= 512 && HeaderFits(a, size) && HeaderFits(b, size)
    requires b == a.(lba := b.lba, alternate := b.alternate, arrayLba := b.arrayLba)
    ensures CopiesAgree(HeaderBytes(o, a, size), HeaderBytes(o, b, size))
  {
    hide HeaderWith, ToLe;
    WithSlices(a, o.Crc(HeaderWith(a, 0, size)[..a.headerBytes]), size);
    WithSlices(b, o.Crc(HeaderWith(b, 0, size)[..b.headerBytes]), size);
  }

  lemma PrintedHeaders(o: Oracles, s: Snapshot, names: int -> Name, d: Mbr)
    requires Printable(s) && d.record < 4
    ensures var m := PrintTable(o, s, names, d);
            && HeadersOk(o, m, SectorsIn(s.device.size, s.sector), s.sector)
            && HeaderOf(m.ph) == HeaderFor(s, 1, SectorsIn(s.device.size, s.sector) - 1, s.primaryLba,
                                           o.Crc(ArrayOf(s, names)))
            && HeaderOf(m.bh) == HeaderFor(s, SectorsIn(s.device.size, s.sector) - 1, 1, s.backupLba,
                                           o.Crc(ArrayOf(s, names)))
  {
    hide HeaderOk, HeaderBytes, HeaderFits, MbrOk, MbrBytes, ArrayOf, CopiesAgree, DeviceOk, Zeros;
    var last := SectorsIn(s.device.size, s.sector) - 1;
    var crc := o.Crc(ArrayOf(s, names));
    var primary, backup := HeaderFor(s, 1, last, s.primaryLba, crc), HeaderFor(s, last, 1, s.backupLba, crc);
    MbrReadsBack(d, last + 1, s.sector);
    HeaderReadsBack(o, primary, s.sector);
    HeaderReadsBack(o, backup, s.sector);
    HeadersAgree(o, primary, backup, s.sector);
  }

  /** The decoded array, sorted, is the sorted inventory. */
  lemma PrintedRows(s: Snapshot, names: int -> Name, rest: Bytes)
    requires Admissible(s)
    ensures RowsFit(s.parts)
    ensures var table := ArrayBytes(s.parts, names, s.entry, s.count) + rest;
            && Holds(table, s.entry, s.count)
            && ExtensionsClear(table, s.entry, s.count)
            && PairwiseCompatible(Entries(table, s.entry, s.count))
            && (forall p :: p in Entries(table, s.entry, s.count) <==> p in s.parts)
            && Sort(Entries(table, s.entry, s.count)) == Sort(s.parts)
            && |Entries(table, s.entry, s.count)| == |s.parts|
  {
    hide Entries, ExtensionsClear, ArrayBytes;
    forall p | p in s.parts ensures RowFits(p) {
    }
    forall i, j | 0 <= i < j < |s.parts| ensures s.parts[i].number != s.parts[j].number {
      assert Compatible(s.parts[i], s.parts[j]);
    }
    ArrayReadsBack(s.parts, names, s.entry, s.count, rest);
    var rows := Entries(ArrayBytes(s.parts, names, s.entry, s.count) + rest, s.entry, s.count);
    EntriesIncreasing(ArrayBytes(s.parts, names, s.entry, s.count) + rest, s.entry, s.count);
    SameRowsSort(rows, s.parts);
  }

  /** Rows of distinct numbers taken from an inventory sort to the same list. */
  lemma SameRowsSort(rows: seq<Part>, parts: seq<Part>)
    requires PairwiseCompatible(parts) && forall p :: p in parts ==> p.start <= p.end
    requires forall p :: p in rows <==> p in parts
    requires forall i, j :: 0 <= i < j < |rows| ==> rows[i].number < rows[j].number
    ensures PairwiseCompatible(rows) && Sort(rows) == Sort(parts) && |rows| == |parts|
  {
    hide Sort;
    forall i, j | 0 <= i < j < |rows| ensures Compatible(rows[i], rows[j]) {
      assert rows[i] in parts && rows[j] in parts;
      var a :| 0 <= a < |parts| && parts[a] == rows[i];
      var b :| 0 <= b < |parts| && parts[b] == rows[j];
      assert rows[i].number < rows[j].number;
      assert Compatible(parts[if a < b then a else b], parts[if a < b then b else a]);
    }
    SortLemma(rows);
    SortLemma(parts);
    SortAscending(rows);
    SortAscending(parts);
    AscendingUnique(Sort(rows), Sort(parts));
  }

  lemma PrintedArray(s: Snapshot, names: int -> Name, table: Bytes)
    requires Admissible(s) && Printable(s)
    requires Holds(table, s.entry, s.count) && table[..EntrySpan(s.count, s.entry)] == ArrayOf(s, names)
    ensures Used(table, s.entry, s.count) == ArrayOf(s, names)
    ensures ExtensionsClear(table, s.entry, s.count)
    ensures PairwiseCompatible(Entries(table, s.entry, s.count))
    ensures forall p :: p in Entries(table, s.entry, s.count) <==> p in s.parts
    ensures Sort(Entries(table, s.entry, s.count)) == Sort(s.parts)
    ensures |Entries(table, s.entry, s.count)| == |s.parts|
  {
    hide Entries, ExtensionsClear, ArrayBytes, Sort, PairwiseCompatible, EntrySpan, Admissible;
    var rest := table[|ArrayOf(s, names)|..];
    PrintedRows(s, names, rest);
    assert table == ArrayOf(s, names) + rest;
  }

  lemma PrintedTableOk(o: Oracles, s: Snapshot, names: int -> Name, d: Mbr)
    requires Admissible(s) && Printable(s) && d.record < 4
    ensures var m := PrintTable(o, s, names, d);
            && TableOk(o, m, SectorsIn(s.device.size, s.sector), s.sector)
            && PairwiseCompatible(Entries(m.pa, s.entry, s.count))
            && (forall p :: p in Entries(m.pa, s.entry, s.count) <==> p in s.parts)
            && Sort(Entries(m.pa, s.entry, s.count)) == Sort(s.parts)
            && |Entries(m.pa, s.entry, s.count)| == |s.parts|
  {
    hide HeadersOk, Entries, ExtensionsClear, ArrayOf, Sort, HeaderBytes, MbrBytes, PairwiseCompatible, GeometryOk,
      Admissible, Scale, SectorsIn, Reserved, EntrySpan, Max, Zeros;
    var m := PrintTable(o, s, names, d);
    PrintedHeaders(o, s, names, d);
    ReservedFits(m, s.sector);
    PrintedArray(s, names, m.pa);
    assert |s.parts| <= MAX_PARTITIONS by {
      FewRows(s);
    }
  }

  lemma FewRows(s: Snapshot)
    requires Admissible(s)
    ensures |s.parts| <= MAX_PARTITIONS
  {
  }

  /** Every admissible inventory, printed with any names and any boot area, is decoded as itself. */
  lemma PrintedTableIsDecoded(o: Oracles, s: Snapshot, names: int -> Name, d: Mbr)
    requires Admissible(s) && d.record < 4
    ensures Printable(s)
    ensures var m := PrintTable(o, s, names, d);
            && Shaped(m, s.sector)
            && Decode(o, m, s.device, s.sector)
               == Normalize(o, s.(fingerprint := o.sha(SnapshotPreimage(m, s.device, s.sector))))
  {
    hide TableOk, HeadersOk, Entries, PrintTable, Sort, PairwiseCompatible, SnapshotPreimage,
      Reserved, Scale, SectorsIn, EntrySpan, Max;
    var m := PrintTable(o, s, names, d);
    PrintedHeaders(o, s, names, d);
    PrintedTableOk(o, s, names, d);
    ReservedFits(m, s.sector);
    SameInventory(o, s, RawSnapshot(o, m, s.device, s.sector));
  }

  /** The decoded fields and rows are normalised to the inventory they were printed from. */
  lemma SameInventory(o: Oracles, s: Snapshot, raw: Snapshot)
    requires Admissible(s) && raw == s.(parts := raw.parts, fingerprint := raw.fingerprint)
    requires PairwiseCompatible(raw.parts) && |raw.parts| == |s.parts| && Sort(raw.parts) == Sort(s.parts)
    requires forall p :: p in raw.parts <==> p in s.parts
    ensures Normalize(o, raw) == Normalize(o, s.(fingerprint := raw.fingerprint))
  {
    hide Sort, DeviceOk, SectorsIn, WholeSectors, Reserved, PairwiseCompatible;
    var shown := s.(fingerprint := raw.fingerprint);
    assert forall p :: RowOk(raw, p) <==> RowOk(s, p);
    assert forall p :: RowOk(shown, p) <==> RowOk(s, p);
    assert Admissible(shown) && Admissible(raw);
  }

  // What is not printed is refused

  /** Some row of this slot and some name were printed. */
  ghost predicate RowPrinted(row: Bytes, n: nat)
    requires |row| >= 128
  {
    exists p: Part, name: Name ::
      RowFits(p) && p.number == n + 1 && p.typeGuid != 0 && row == RowBytes(p, name, |row|)
  }

  /** The reader accepts precisely the slots that are unused or were printed. */
  lemma SlotExactly(row: Bytes, n: nat)
    requires |row| >= 128
    ensures (Occupied(row) ==> AllZero(row[128..])) <==> AllZero(row[..16]) || RowPrinted(row, n)
  {
    hide RowBytes, PartOf;
    if Occupied(row) && AllZero(row[128..]) {
      var p, name := PartOf(row, n), row[56..128];
      RowIsPrinted(row, n);
      RowReadsBack(p, name, |row|);
      assert p.number == n + 1 by {
        SlotNumber(row, n);
      }
      assert RowPrinted(row, n);
    }
    forall p: Part, name: Name | RowFits(p) && p.typeGuid != 0 && row == RowBytes(p, name, |row|)
      ensures AllZero(row[128..])
    {
      RowReadsBack(p, name, |row|);
    }
  }

  lemma SlotNumber(row: Bytes, n: nat)
    requires |row| >= 128
    ensures PartOf(row, n).number == n + 1
  {
  }

  /** Both headers agree precisely if they are one header but for what tells the copies apart. */
  lemma CopiesExactly(ph: Bytes, bh: Bytes)
    requires |ph| >= 512 && |bh| >= 512 && U32(ph, 8) == U32(bh, 8)
    ensures var a, b := HeaderOf(ph), HeaderOf(bh);
            CopiesAgree(ph, bh) <==> b == a.(lba := b.lba, alternate := b.alternate, arrayLba := b.arrayLba)
  {
    hide Le, ToLe;
    ToLeOfLe(ph[56..72]);
    ToLeOfLe(bh[56..72]);
  }

  /** Two printed headers of one table, the first and the last sector but for the MBR. */
  ghost predicate HeadersPrinted(o: Oracles, ph: Bytes, bh: Bytes, total: nat, sector: nat)
    requires |ph| >= 512 && |bh| >= 512 && total >= 1
  {
    var a, b := HeaderOf(ph), HeaderOf(bh);
    && HeaderFits(a, sector) && ph == HeaderBytes(o, a, sector)
    && HeaderFits(b, sector) && bh == HeaderBytes(o, b, sector)
    && a.lba == b.alternate == 1 && a.alternate == b.lba == total - 1
    && b == a.(lba := b.lba, alternate := b.alternate, arrayLba := b.arrayLba)
  }

  /** The array that the headers describe: its slots unused or printed, at most 32 of them used. */
  ghost predicate ArrayPrinted(o: Oracles, table: Bytes, entry: nat, count: nat, crc: nat)
    requires Holds(table, entry, count)
  {
    && crc == o.Crc(Used(table, entry, count))
    && (forall n: nat :: n < count ==> SlotPrinted(table, entry, n))
    && |Entries(table, entry, count)| <= MAX_PARTITIONS
  }

  /** The table is a printed one: its MBR, its headers and, in both places, the array they describe. */
  ghost predicate Printed(o: Oracles, m: Metadata, total: nat, sector: int)
    requires Shaped(m, sector) && total >= 1
  {
    && (exists d: Mbr :: d.record < 4 && m.mbr == MbrBytes(d, total, |m.mbr|))
    && HeadersPrinted(o, m.ph, m.bh, total, sector)
    && PlacementOk(m, total, sector)
    && ArrayFits(m, sector)
    && ArrayPrinted(o, m.pa, EntryBytes(m), EntryCount(m), U32(m.ph, 88))
    && Used(m.pa, EntryBytes(m), EntryCount(m)) == Used(m.ba, EntryBytes(m), EntryCount(m))
  }

  ghost predicate SlotPrinted(table: Bytes, entry: nat, n: nat) {
    Holds(table, entry, n + 1)
    && (AllZero(Row(table, entry, n)[..16]) || RowPrinted(Row(table, entry, n), n))
  }

  /** The reader accepts precisely the printed tables, before the rows are compared with each other. */
  lemma TableExactly(o: Oracles, m: Metadata, total: nat, sector: int)
    requires Shaped(m, sector) && total >= 1
    ensures TableOk(o, m, total, sector) <==> Printed(o, m, total, sector)
  {
    hide MbrOk, MbrBytes, HeaderOk, HeaderBytes, HeaderFits, PlacementOk, Entries, Row, EntrySpan, RowPrinted,
         CopiesAgree;
    ReservedFits(m, sector);
    MbrExactly(m.mbr, total);
    HeaderExactly(o, m.ph, 1, total - 1);
    HeaderExactly(o, m.bh, total - 1, 1);
    HeadersTell(o, m.ph, m.bh, total);
    SlotsExactly(m.pa, EntryBytes(m), EntryCount(m));
  }

  lemma HeadersTell(o: Oracles, ph: Bytes, bh: Bytes, total: nat)
    requires |ph| >= 512 && |bh| >= 512 && total >= 1
    ensures HeaderOk(o, ph, 1, total - 1) && HeaderOk(o, bh, total - 1, 1) ==>
              (CopiesAgree(ph, bh) <==>
               HeaderOf(bh) == HeaderOf(ph).(lba := HeaderOf(bh).lba, alternate := HeaderOf(bh).alternate,
                                             arrayLba := HeaderOf(bh).arrayLba))
  {
    hide HeaderCrc, CopiesAgree;
    if U32(ph, 8) == U32(bh, 8) {
      CopiesExactly(ph, bh);
    }
  }

  lemma SlotsExactly(table: Bytes, entry: nat, count: nat)
    requires Holds(table, entry, count)
    ensures ExtensionsClear(table, entry, count) <==> forall n: nat :: n < count ==> SlotPrinted(table, entry, n)
  {
    hide RowPrinted;
    forall n: nat | n < count
      ensures Holds(table, entry, n + 1)
      ensures SlotPrinted(table, entry, n)
              <==> (Occupied(Row(table, entry, n)) ==> AllZero(Row(table, entry, n)[128..]))
    {
      SlotExactly(Row(table, entry, n), n);
    }
  }
}
