/** The bit-exact reader of a GUID partition table (chapter 5 of UEFI 2.11). */
module GptReader {
  import opened Bytes
  import opened Gpt

  /** A byte source: `None` stands for a read that raises. */
  type Reader = (int, int) -> Option<Bytes>

  /** The five byte regions that make up the table: protective MBR, primary
      header and entry array, backup entry array and header. */
  datatype Metadata = Metadata(mbr: Bytes, ph: Bytes, pa: Bytes, ba: Bytes, bh: Bytes)

  const SIGNATURE: Bytes := [0x45, 0x46, 0x49, 0x20, 0x50, 0x41, 0x52, 0x54]

  const MAX_READ := 4 * 1024 * 1024

  function Exact(read: Reader, device: Device, offset: int, length: int): (r: Option<Bytes>)
    ensures r.Some? ==>
              |r.value| == length && 0 <= offset && 0 < length <= MAX_READ && offset + length <= device.size
  {
    if offset < 0 || length <= 0 || length > MAX_READ || offset + length > device.size then None
    else
      var raw :- read(offset, length);
      if |raw| != length then None else Some(raw)
  }

  /** Region lengths that follow from the sector size and the primary header. */
  predicate Shaped(m: Metadata, sector: int) {
    && SectorOk(sector)
    && |m.mbr| == sector && |m.ph| == sector && |m.bh| == sector
    && EntrySizeOk(U32(m.ph, 84))
    && |m.pa| == Scale(Reserved(U32(m.ph, 80), U32(m.ph, 84), sector), sector)
    && |m.ba| == |m.pa|
  }

  /** The five reads, where the header fields place them. */
  function ReadMetadata(read: Reader, device: Device, sector: int): (r: Option<Metadata>)
    requires SectorOk(sector)
    ensures r.Some? ==> Shaped(r.value, sector)
  {
    var total := SectorsIn(device.size, sector);
    var mbr :- Exact(read, device, 0, sector);
    var ph :- Exact(read, device, sector, sector);
    var bh :- Exact(read, device, Scale(total - 1, sector), sector);
    if !EntrySizeOk(U32(ph, 84)) then None
    else
    var reserved := Reserved(U32(ph, 80), U32(ph, 84), sector);
    var pa :- Exact(read, device, Scale(U64(ph, 72), sector), Scale(reserved, sector));
    var ba :- Exact(read, device, Scale(U64(bh, 72), sector), Scale(reserved, sector));
    Some(Metadata(mbr, ph, pa, ba, bh))
  }

  // Protective MBR (section 5.2.3)

  function MbrRecord(mbr: Bytes, n: nat): Bytes
    requires |mbr| >= 512 && n < 4
  {
    mbr[446 + n * 16..462 + n * 16]
  }

  /** Record n is the only one in use and covers the disk. */
  predicate ProtectiveRecord(mbr: Bytes, n: nat, total: int)
    requires |mbr| >= 512 && n < 4
  {
    var r := MbrRecord(mbr, n);
    && !AllZero(r)
    && (forall k :: 0 <= k < 4 && k != n ==> AllZero(MbrRecord(mbr, k)))
    && r[4] == 0xee && (r[0] == 0 || r[0] == 0x80)
    && U32(r, 8) == 1 && U32(r, 12) == Min(total - 1, 0xffff_ffff)
  }

  predicate MbrOk(mbr: Bytes, total: int)
    requires |mbr| >= 512
  {
    && mbr[510] == 0x55 && mbr[511] == 0xaa
    && AllZero(mbr[512..])
    && exists n :: 0 <= n < 4 && ProtectiveRecord(mbr, n, total)
  }

  // Header (section 5.3.2)

  function HeaderCrc(o: Oracles, raw: Bytes): nat
    requires |raw| >= 512 && 92 <= U32(raw, 12) <= |raw|
  {
    o.Crc(Splice(raw, 16, Zeros(4))[..U32(raw, 12)])
  }

  predicate HeaderOk(o: Oracles, raw: Bytes, lba: int, alternate: int)
    requires |raw| >= 512
  {
    && raw[0..8] == SIGNATURE
    && U32(raw, 8) == 0x10000
    && 92 <= U32(raw, 12) <= |raw|
    && U32(raw, 20) == 0
    && U64(raw, 24) == lba && U64(raw, 32) == alternate
    && AllZero(raw[92..])
    && HeaderCrc(o, raw) == U32(raw, 16)
    && 1 <= U32(raw, 80) <= 4096
    && EntrySizeOk(U32(raw, 84))
  }

  predicate CopiesAgree(ph: Bytes, bh: Bytes)
    requires |ph| >= 512 && |bh| >= 512
  {
    && U32(ph, 8) == U32(bh, 8) && U32(ph, 12) == U32(bh, 12)
    && U64(ph, 40) == U64(bh, 40) && U64(ph, 48) == U64(bh, 48)
    && ph[56..72] == bh[56..72]
    && U32(ph, 80) == U32(bh, 80) && U32(ph, 84) == U32(bh, 84)
    && U32(ph, 88) == U32(bh, 88)
  }

  // Entries (section 5.3.3)

  /** The region has room for n entries. */
  predicate Holds(table: Bytes, entry: nat, n: nat) {
    EntrySizeOk(entry) && EntrySpan(n, entry) <= |table|
  }

  /** The bytes of slot n, counted from 0. */
  function Row(table: Bytes, entry: nat, n: nat): (r: Bytes)
    requires Holds(table, entry, n + 1)
    ensures |r| == entry
  {
    table[EntrySpan(n, entry)..EntrySpan(n + 1, entry)]
  }

  /** The first n slots. */
  function Used(table: Bytes, entry: nat, n: nat): (r: Bytes)
    requires Holds(table, entry, n)
    ensures |r| == EntrySpan(n, entry)
  {
    table[..EntrySpan(n, entry)]
  }

  predicate Occupied(row: Bytes)
    requires |row| >= 128
  {
    !AllZero(row[..16])
  }

  function PartOf(row: Bytes, n: nat): Part
    requires |row| >= 128
  {
    Part(n + 1, U64(row, 32), U64(row, 40), U128(row, 0), U128(row, 16), U64(row, 48))
  }

  /** The occupied rows among the first n slots, in slot order. */
  function Entries(table: Bytes, entry: nat, n: nat): seq<Part>
    requires Holds(table, entry, n)
  {
    if n == 0 then []
    else
      var row := Row(table, entry, n - 1);
      Entries(table, entry, n - 1) + (if Occupied(row) then [PartOf(row, n - 1)] else [])
  }

  predicate ExtensionsClear(table: Bytes, entry: nat, count: nat)
    requires Holds(table, entry, count)
  {
    forall n :: 0 <= n < count ==>
      (       var row := Row(table, entry, n);
       Occupied(row) ==> AllZero(row[128..]))
  }

  /** Slot p.number - 1 is used and holds the row p. */
  predicate SlotHolds(table: Bytes, entry: nat, p: Part)
    requires 1 <= p.number && Holds(table, entry, p.number)
  {
    var row := Row(table, entry, p.number - 1);
    Occupied(row) && p == PartOf(row, p.number - 1)
  }

  /** Membership in the decoded list: exactly the occupied slots. */
  lemma {:induction false} EntriesLemma(table: Bytes, entry: nat, n: nat)
    requires Holds(table, entry, n)
    ensures forall p :: p in Entries(table, entry, n) <==>
              1 <= p.number <= n && Holds(table, entry, p.number) && SlotHolds(table, entry, p)
  {
    if n > 0 {
      EntriesLemma(table, entry, n - 1);
      var row := Row(table, entry, n - 1);
      if Occupied(row) {
        assert PartOf(row, n - 1).number == n;
      }
    }
  }

  /** The decoded rows come in slot order, each slot at most once. */
  lemma {:induction false} EntriesIncreasing(table: Bytes, entry: nat, n: nat)
    requires Holds(table, entry, n)
    ensures forall i, j :: 0 <= i < j < |Entries(table, entry, n)| ==>
              Entries(table, entry, n)[i].number < Entries(table, entry, n)[j].number
    ensures forall p :: p in Entries(table, entry, n) ==> p.number <= n
    ensures |Entries(table, entry, n)| <= n
  {
    if n > 0 {
      EntriesIncreasing(table, entry, n - 1);
      var before := Entries(table, entry, n - 1);
      forall i | 0 <= i < |before| ensures before[i].number <= n - 1 {
        assert before[i] in before;
      }
    }
  }

  /** The decoding loop: refuses a used slot with unknown extension bytes and a 33rd used slot. */
  method ParseEntries(table: Bytes, entry: nat, count: nat) returns (r: Option<seq<Part>>)
    requires Holds(table, entry, count)
    ensures r == if ExtensionsClear(table, entry, count) && |Entries(table, entry, count)| <= MAX_PARTITIONS
                 then Some(Entries(table, entry, count)) else None
  {
    var parts: seq<Part> := [];
    EntriesMonotone(table, entry, 0, count);
    for n := 0 to count
      invariant Holds(table, entry, n)
      invariant parts == Entries(table, entry, n) && |parts| <= MAX_PARTITIONS
      invariant forall k :: 0 <= k <= n ==> Holds(table, entry, k)
      invariant forall k :: 0 <= k < n ==> Occupied(Row(table, entry, k)) ==> AllZero(Row(table, entry, k)[128..])
    {
      EntriesMonotone(table, entry, n + 1, count);
      var row := Row(table, entry, n);
      if !Occupied(row) {
        continue;
      }
      if !AllZero(row[128..]) {
        return None;
      }
      parts := parts + [PartOf(row, n)];
      if |parts| > MAX_PARTITIONS {
        return None;
      }
    }
    return Some(parts);
  }

  lemma {:induction false} EntriesMonotone(table: Bytes, entry: nat, n: nat, count: nat)
    requires entry >= 128 && n <= count && Holds(table, entry, count)
    ensures Holds(table, entry, n)
    ensures |Entries(table, entry, n)| <= |Entries(table, entry, count)|
    decreases count - n
  {
    if n < count {
      EntriesMonotone(table, entry, n + 1, count);
    }
  }

  // The whole table

  function Text(s: string): Bytes {
    seq(|s|, i requires 0 <= i < |s| => s[i] as int % 256)
  }

  /** A region as it enters a digest: its length, then its bytes. */
  function Frame(raw: Bytes): Bytes {
    ToLe(|raw|, 8) + raw
  }

  function FrameAll(m: Metadata): Bytes {
    Frame(m.mbr) + (Frame(m.ph) + (Frame(m.pa) + (Frame(m.ba) + Frame(m.bh))))
  }

  function SnapshotPreimage(m: Metadata, device: Device, sector: int): Bytes
    requires Shaped(m, sector) && device.size >= 0
  {
    Text("ro-gpt-snapshot-v1") + [0]
    + ToLe(device.size, 8) + ToLe(sector, 8) + ToLe(U64(m.ph, 72), 8) + ToLe(U64(m.bh, 72), 8)
    + FrameAll(m)
  }

  function EntryCount(m: Metadata): nat
    requires |m.ph| >= 512
  {
    U32(m.ph, 80)
  }

  function EntryBytes(m: Metadata): nat
    requires |m.ph| >= 512
  {
    U32(m.ph, 84)
  }

  predicate ArrayFits(m: Metadata, sector: int)
    requires Shaped(m, sector)
  {
    && Holds(m.pa, EntryBytes(m), EntryCount(m))
    && Holds(m.ba, EntryBytes(m), EntryCount(m))
  }

  /** The reserved space always holds the whole array, so ArrayFits excludes nothing. */
  lemma ReservedFits(m: Metadata, sector: int)
    requires Shaped(m, sector)
    ensures ArrayFits(m, sector)
  {
  }

  /** Where the header places the usable range and the two arrays. */
  predicate PlacementOk(m: Metadata, total: int, sector: int)
    requires Shaped(m, sector)
  {
    var reserved := Reserved(EntryCount(m), EntryBytes(m), sector);
    var first, last := U64(m.ph, 40), U64(m.ph, 48);
    var pLba, bLba := U64(m.ph, 72), U64(m.bh, 72);
    && 2 + reserved <= first <= last <= total - reserved - 2
    && 2 <= pLba && pLba + reserved <= first
    && last < bLba && bLba + reserved <= total - 1
  }

  /** The entry arrays carry their CRCs and agree. */
  predicate CrcsOk(o: Oracles, m: Metadata, entry: nat, count: nat)
    requires |m.ph| >= 512 && |m.bh| >= 512
    requires Holds(m.pa, entry, count) && Holds(m.ba, entry, count)
  {
    && o.Crc(Used(m.pa, entry, count)) == U32(m.ph, 88)
    && o.Crc(Used(m.ba, entry, count)) == U32(m.bh, 88)
    && Used(m.pa, entry, count) == Used(m.ba, entry, count)
  }

  /** Beyond that, the array holds at most 32 plain entries. */
  predicate ArraysOk(o: Oracles, m: Metadata, entry: nat, count: nat)
    requires |m.ph| >= 512 && |m.bh| >= 512
    requires Holds(m.pa, entry, count) && Holds(m.ba, entry, count)
  {
    && CrcsOk(o, m, entry, count)
    && ExtensionsClear(m.pa, entry, count)
    && |Entries(m.pa, entry, count)| <= MAX_PARTITIONS
  }

  /** Protective MBR, both headers and their placement. */
  predicate HeadersOk(o: Oracles, m: Metadata, total: int, sector: int)
    requires Shaped(m, sector)
  {
    && MbrOk(m.mbr, total)
    && HeaderOk(o, m.ph, 1, total - 1)
    && HeaderOk(o, m.bh, total - 1, 1)
    && CopiesAgree(m.ph, m.bh)
    && PlacementOk(m, total, sector)
  }

  /** Everything `read_snapshot` checks on the table before normalisation. */
  predicate TableOk(o: Oracles, m: Metadata, total: int, sector: int)
    requires Shaped(m, sector)
  {
    && HeadersOk(o, m, total, sector)
    && ArrayFits(m, sector)
    && ArraysOk(o, m, EntryBytes(m), EntryCount(m))
  }

  /** The inventory before normalisation. */
  function RawSnapshot(o: Oracles, m: Metadata, device: Device, sector: int): Snapshot
    requires Shaped(m, sector) && ArrayFits(m, sector) && device.size >= 0
  {
    Snapshot(device, sector, U64(m.ph, 40), U64(m.ph, 48), EntryCount(m), EntryBytes(m),
             U64(m.ph, 72), U64(m.bh, 72), U128(m.ph, 56), o.sha(SnapshotPreimage(m, device, sector)),
             Entries(m.pa, EntryBytes(m), EntryCount(m)))
  }

  /** `read_snapshot` without preservation policy, from the bytes it read. */
  ghost function Decode(o: Oracles, m: Metadata, device: Device, sector: int): (r: Option<Snapshot>)
    requires Shaped(m, sector)
    ensures r.Some? ==> ArrayFits(m, sector)
    ensures r.Some? ==> Normal(o, r.value)
  {
    if DeviceOk(device) && WholeSectors(device.size, sector) && TableOk(o, m, SectorsIn(device.size, sector), sector)
    then
      NormalizeIsNormal(o, RawSnapshot(o, m, device, sector));
      Normalize(o, RawSnapshot(o, m, device, sector))
    else None
  }

  /** The rows of a decoded inventory are exactly the occupied slots. */
  lemma DecodedRows(o: Oracles, m: Metadata, device: Device, sector: int)
    requires Shaped(m, sector) && Decode(o, m, device, sector).Some?
    ensures forall p :: p in Decode(o, m, device, sector).value.parts <==>
              1 <= p.number <= EntryCount(m)
              && Holds(m.pa, EntryBytes(m), p.number)
              && SlotHolds(m.pa, EntryBytes(m), p)
  {
    EntriesLemma(m.pa, EntryBytes(m), EntryCount(m));
    SortLemma(RawSnapshot(o, m, device, sector).parts);
  }
}
