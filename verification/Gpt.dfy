/** The partition-table inventory ("snapshot") and its normalisation.

    GUIDs are kept as the little-endian value of their 16 on-disk bytes, attributes as
    a 64-bit number and fingerprints as numbers.  CRC-32, SHA-256 and the length of the JSON text
    are parameters of every statement: nothing is known about them here.
 */
module Gpt {
  import opened Bytes

  const MAX_BYTES := 9007199254740991
  const MAX_PARTITIONS := 32
  const MAX_JSON := 7168
  const MIB := 1048576
  const GIB := 1073741824

  type Guid = g: int | 0 <= g < 0x1_0000_0000_0000_0000_0000_0000_0000_0000
  type Digest = nat

  /** On-disk values of the three partition types the installer knows. */
  const BASIC_DATA: Guid := 0xc799_26b7_b668_c087_4433_b9e5_ebd0_a0a2
  const EFI_SYSTEM: Guid := 0x3bc9_3ec9_a000_4bba_11d2_f81f_c12a_7328
  const LINUX_DATA: Guid := 0xe47d_47d8_693d_798e_4772_8483_0fc6_3daf

  datatype Device = Device(path: string, major: int, minor: int, size: int, sequence: int)

  datatype Part = Part(number: int, start: int, end: int, typeGuid: Guid, partGuid: Guid, attributes: int)

  datatype Snapshot = Snapshot(
    device: Device, sector: int, first: int, last: int, count: int, entry: int,
    primaryLba: int, backupLba: int, diskGuid: Guid, fingerprint: Digest, parts: seq<Part>)

  /** The foreign functions: CRC-32, SHA-256 and the size of the JSON text. */
  datatype Oracles = Oracles(crc: Bytes -> nat, sha: Bytes -> nat, jsonSize: Snapshot -> nat) {
    function Crc(s: Bytes): (r: nat)
      ensures r < 0x1_0000_0000
    {
      crc(s) % 0x1_0000_0000
    }
  }

  predicate PathChar(c: char) {
    'A' <= c <= 'Z' || 'a' <= c <= 'z' || '0' <= c <= '9' || c == '_' || c == '-'
  }

  predicate DeviceOk(d: Device) {
    && 5 < |d.path| <= 133 && d.path[..5] == "/dev/"
    && (forall i :: 5 <= i < |d.path| ==> PathChar(d.path[i]))
    && 0 <= d.major <= 4095 && 0 <= d.minor <= 1048575
    && 1 <= d.size <= MAX_BYTES && 1 <= d.sequence < 0x8000_0000_0000_0000
  }

  predicate SectorOk(sector: int) {
    sector == 512 || sector == 4096
  }

  // Sector arithmetic is written out for the two admissible sector sizes, so that
  // it stays linear; SectorArithmetic ties it to plain products and quotients.

  function Scale(n: int, sector: int): int
    requires SectorOk(sector)
  {
    if sector == 512 then n * 512 else n * 4096
  }

  function SectorsIn(size: int, sector: int): int
    requires SectorOk(sector)
  {
    if sector == 512 then size / 512 else size / 4096
  }

  predicate WholeSectors(size: int, sector: int)
    requires SectorOk(sector)
  {
    if sector == 512 then size % 512 == 0 else size % 4096 == 0
  }

  lemma SectorArithmetic(n: int, sector: int)
    requires SectorOk(sector)
    ensures Scale(n, sector) == n * sector
    ensures SectorsIn(n, sector) == n / sector
    ensures WholeSectors(n, sector) <==> n % sector == 0
  {
  }

  predicate EntrySizeOk(entry: int) {
    entry == 128 || entry == 256 || entry == 512 || entry == 1024
  }

  /** The bytes of n entries, again without a product of variables. */
  function EntrySpan(n: int, entry: int): int
    requires EntrySizeOk(entry)
  {
    if entry == 128 then n * 128
    else if entry == 256 then n * 256
    else if entry == 512 then n * 512
    else n * 1024
  }

  lemma EntryArithmetic(n: int, entry: int)
    requires EntrySizeOk(entry)
    ensures EntrySpan(n, entry) == n * entry
  {
  }

  function Max(a: int, b: int): int {
    if a < b then b else a
  }

  function Min(a: int, b: int): int {
    if a < b then a else b
  }

  /** Sectors reserved for one copy of the entry array (section 5.3.1 of UEFI 2.11). */
  function Reserved(count: int, entry: int, sector: int): int
    requires SectorOk(sector) && EntrySizeOk(entry)
  {
    SectorsIn(Max(16384, EntrySpan(count, entry)) + sector - 1, sector)
  }

  predicate GeometryOk(s: Snapshot) {
    && SectorOk(s.sector) && WholeSectors(s.device.size, s.sector)
    && 1 <= s.count <= 4096 && EntrySizeOk(s.entry)
    && var reserved := Reserved(s.count, s.entry, s.sector);
       var total := SectorsIn(s.device.size, s.sector);
    && 2 + reserved <= s.first <= total - reserved - 2
    && s.first <= s.last <= total - reserved - 2
    && 2 <= s.primaryLba <= s.first
    && s.last + 1 <= s.backupLba <= total - 2
    && s.primaryLba + reserved <= s.first
    && s.backupLba + reserved <= total - 1
  }

  predicate RowOk(s: Snapshot, p: Part) {
    && 1 <= p.number <= s.count
    && s.first <= p.start <= s.last
    && p.start <= p.end <= s.last
    && p.partGuid != 0 && p.typeGuid != 0
    && 0 <= p.attributes < 0x1_0000_0000_0000_0000
  }

  /** No sector belongs to both partitions. */
  predicate Apart(p: Part, q: Part) {
    p.end < q.start || q.end < p.start
  }

  predicate DistinctIdentity(p: Part, q: Part) {
    p.number != q.number && p.partGuid != q.partGuid
  }

  /** Two rows may stand in one inventory. */
  predicate Compatible(p: Part, q: Part) {
    DistinctIdentity(p, q) && Apart(p, q)
  }

  ghost predicate PairwiseCompatible(parts: seq<Part>) {
    forall i, j :: 0 <= i < j < |parts| ==> Compatible(parts[i], parts[j])
  }

  /** What an inventory must satisfy, in any order of its rows; the JSON limit is apart. */
  ghost predicate Admissible(s: Snapshot) {
    && DeviceOk(s.device)
    && GeometryOk(s)
    && s.diskGuid != 0
    && |s.parts| <= Min(s.count, MAX_PARTITIONS)
    && (forall p :: p in s.parts ==> RowOk(s, p) && p.partGuid != s.diskGuid)
    && PairwiseCompatible(s.parts)
  }

  // Sorting by start sector, as the stable `list.sort` of the program does.

  function Insert(p: Part, s: seq<Part>): seq<Part> {
    if s == [] then [p]
    else if p.start <= s[0].start then [p] + s
    else [s[0]] + Insert(p, s[1..])
  }

  function Sort(s: seq<Part>): seq<Part> {
    if s == [] then [] else Insert(s[0], Sort(s[1..]))
  }

  ghost predicate SortedByStart(s: seq<Part>) {
    forall i, j :: 0 <= i < j < |s| ==> s[i].start <= s[j].start
  }

  /** Each row ends before the next one starts. */
  ghost predicate Ascending(s: seq<Part>) {
    forall i, j :: 0 <= i < j < |s| ==> s[i].end < s[j].start
  }

  lemma {:induction false} InsertLemma(p: Part, s: seq<Part>)
    requires SortedByStart(s)
    ensures SortedByStart(Insert(p, s))
    ensures |Insert(p, s)| == |s| + 1
    ensures forall q :: q in Insert(p, s) <==> q == p || q in s
  {
    if s != [] && p.start > s[0].start {
      InsertLemma(p, s[1..]);
      assert s == [s[0]] + s[1..];
      var t := Insert(p, s[1..]);
      forall i, j | 0 <= i < j < |[s[0]] + t|
        ensures ([s[0]] + t)[i].start <= ([s[0]] + t)[j].start
      {
        assert t[j - 1] in t;
      }
    }
  }

  lemma {:induction false} InsertCompatible(p: Part, s: seq<Part>)
    requires SortedByStart(s)
    requires PairwiseCompatible(s)
    requires forall q :: q in s ==> Compatible(p, q)
    ensures PairwiseCompatible(Insert(p, s))
  {
    if s != [] && p.start > s[0].start {
      InsertCompatible(p, s[1..]);
      InsertLemma(p, s[1..]);
      var t := Insert(p, s[1..]);
      forall q | q in t ensures Compatible(s[0], q) {
        assert s[0] in s;
        if q != p {
          var k :| 1 <= k < |s| && s[k] == q;
        }
      }
      forall i, j | 0 <= i < j < |[s[0]] + t|
        ensures Compatible(([s[0]] + t)[i], ([s[0]] + t)[j])
      {
        assert t[j - 1] in t;
        assert i > 0 ==> Compatible(t[i - 1], t[j - 1]);
      }
    }
  }

  /** Sorting permutes: same rows, same number of rows, ascending starts. */
  lemma {:induction false} SortLemma(s: seq<Part>)
    ensures SortedByStart(Sort(s))
    ensures |Sort(s)| == |s|
    ensures forall q :: q in Sort(s) <==> q in s
  {
    if s != [] {
      SortLemma(s[1..]);
      InsertLemma(s[0], Sort(s[1..]));
      assert s == [s[0]] + s[1..];
    }
  }

  lemma {:induction false} SortCompatible(s: seq<Part>)
    requires PairwiseCompatible(s)
    ensures PairwiseCompatible(Sort(s))
  {
    if s != [] {
      SortCompatible(s[1..]);
      SortLemma(s[1..]);
      InsertCompatible(s[0], Sort(s[1..]));
    }
  }

  lemma SortAscending(s: seq<Part>)
    requires PairwiseCompatible(s)
    requires forall p :: p in s ==> p.start <= p.end
    ensures Ascending(Sort(s))
  {
    SortLemma(s);
    SortCompatible(s);
    var t := Sort(s);
    forall i, j | 0 <= i < j < |t| ensures t[i].end < t[j].start {
      assert t[i] in t && t[j] in t;
      assert Compatible(t[i], t[j]);
    }
  }

  /** Rows of an ascending list: the first ends before any other starts. */
  lemma HeadPrecedes(a: seq<Part>, p: Part)
    requires Ascending(a) && a != []
    requires forall q :: q in a ==> q.start <= q.end
    ensures p in a[1..] <==> p in a && p != a[0]
    ensures p in a ==> p == a[0] || a[0].start < p.start
  {
  }

  lemma SomeRow(a: seq<Part>)
    ensures a != [] ==> exists p :: p in a
  {
    if a != [] {
      assert a[0] in a;
    }
  }

  /** A list of rows in ascending extents is determined by its set of rows. */
  lemma {:induction false} AscendingUnique(a: seq<Part>, b: seq<Part>)
    requires Ascending(a) && Ascending(b)
    requires forall p :: p in a ==> p.start <= p.end
    requires forall p :: p in a <==> p in b
    ensures a == b
  {
    if a == [] || b == [] {
      SomeRow(a);
      SomeRow(b);
    } else {
      assert a[0] in b && b[0] in a;
      HeadPrecedes(a, b[0]);
      HeadPrecedes(b, a[0]);
      assert a[0] == b[0];
      forall p ensures p in a[1..] <==> p in b[1..] {
        HeadPrecedes(a, p);
        HeadPrecedes(b, p);
      }
      assert forall p :: p in a[1..] ==> p in a;
      AscendingUnique(a[1..], b[1..]);
      assert a == [a[0]] + a[1..] && b == [b[0]] + b[1..];
    }
  }

  lemma SortOfAscending(a: seq<Part>)
    requires Ascending(a)
    requires forall p :: p in a ==> p.start <= p.end
    requires PairwiseCompatible(a)
    ensures Sort(a) == a
  {
  }

  // Normalisation

  function Sorted(s: Snapshot): Snapshot {
    s.(parts := Sort(s.parts))
  }

  /** The normalised inventory, or None where the program raises. */
  ghost function Normalize(o: Oracles, s: Snapshot): (r: Option<Snapshot>)
    ensures r.Some? ==> r.value == Sorted(s) && SectorOk(r.value.sector)
  {
    if Admissible(s) && o.jsonSize(Sorted(s)) <= MAX_JSON then Some(Sorted(s)) else None
  }

  /** What every normalised inventory is. */
  ghost predicate Normal(o: Oracles, s: Snapshot) {
    && Admissible(s)
    && Ascending(s.parts)
    && o.jsonSize(s) <= MAX_JSON
  }

  /** Normalisation yields normal inventories and leaves exactly those alone. */
  lemma NormalizeIsNormal(o: Oracles, s: Snapshot)
    ensures Normalize(o, s).Some? ==> Normal(o, Normalize(o, s).value)
    ensures Normal(o, s) <==> Normalize(o, s) == Some(s)
  {
    if Admissible(s) {
      SortLemma(s.parts);
      SortCompatible(s.parts);
      SortAscending(s.parts);
      assert Admissible(Sorted(s));
    }
    if Normal(o, s) {
      SortOfAscending(s.parts);
    }
  }

  /** The program's loops: range checks with two identity sets, sort, adjacent overlap scan. */
  method NormalizeSnapshot(o: Oracles, s: Snapshot, expected: Option<Device>) returns (r: Option<Snapshot>)
    ensures r == if expected.Some? && s.device != expected.value then None else Normalize(o, s)
  {
    if !DeviceOk(s.device) || (expected.Some? && s.device != expected.value) {
      return None;
    }
    if !GeometryOk(s) || s.diskGuid == 0 || |s.parts| > Min(s.count, MAX_PARTITIONS) {
      return None;
    }
    var numbers: set<int>, guids: set<Guid> := {}, {s.diskGuid};
    for n := 0 to |s.parts|
      invariant numbers == set i | 0 <= i < n :: s.parts[i].number
      invariant guids == {s.diskGuid} + set i | 0 <= i < n :: s.parts[i].partGuid
      invariant forall i :: 0 <= i < n ==> RowOk(s, s.parts[i]) && s.parts[i].partGuid != s.diskGuid
      invariant forall i, j :: 0 <= i < j < n ==> DistinctIdentity(s.parts[i], s.parts[j])
    {
      var row := s.parts[n];
      if !RowOk(s, row) {
        assert row in s.parts;
        return None;
      }
      if row.number in numbers || row.partGuid in guids {
        DuplicateRefused(s, n);
        return None;
      }
      numbers := numbers + {row.number};
      guids := guids + {row.partGuid};
    }
    var parts := Sort(s.parts);
    SortLemma(s.parts);
    var overlap := exists i :: 0 <= i < |parts| - 1 && parts[i + 1].start <= parts[i].end;
    OverlapScan(s.parts);
    if overlap {
      return None;
    }
    if o.jsonSize(s.(parts := parts)) > MAX_JSON {
      return None;
    }
    return Some(s.(parts := parts));
  }

  lemma DuplicateRefused(s: Snapshot, n: nat)
    requires n < |s.parts|
    requires s.parts[n].partGuid == s.diskGuid
             || exists i :: 0 <= i < n && !DistinctIdentity(s.parts[i], s.parts[n])
    ensures !Admissible(s)
  {
  }

  /** After sorting, comparing neighbours decides whether any two rows overlap. */
  lemma OverlapScan(rows: seq<Part>)
    requires forall p :: p in rows ==> p.start <= p.end
    requires forall i, j :: 0 <= i < j < |rows| ==> DistinctIdentity(rows[i], rows[j])
    ensures |Sort(rows)| == |rows|
    ensures PairwiseCompatible(rows)
            <==> forall i :: 0 <= i < |rows| - 1 ==> Sort(rows)[i].end < Sort(rows)[i + 1].start
  {
    SortLemma(rows);
    if PairwiseCompatible(rows) {
      SortAscending(rows);
    }
    if forall i :: 0 <= i < |rows| - 1 ==> Sort(rows)[i].end < Sort(rows)[i + 1].start {
      NeighboursAscend(Sort(rows));
      AscendingIsCompatible(rows, Sort(rows));
    }
  }

  lemma AscendingIsCompatible(rows: seq<Part>, t: seq<Part>)
    requires Ascending(t) && forall p :: p in rows ==> p in t
    requires forall i, j :: 0 <= i < j < |rows| ==> DistinctIdentity(rows[i], rows[j])
    ensures PairwiseCompatible(rows)
  {
    forall i, j | 0 <= i < j < |rows|
      ensures Compatible(rows[i], rows[j])
    {
      assert rows[i] in t && rows[j] in t;
      var a :| 0 <= a < |t| && t[a] == rows[i];
      var b :| 0 <= b < |t| && t[b] == rows[j];
      assert DistinctIdentity(rows[i], rows[j]) && a != b;
    }
  }

  lemma NeighboursAscend(t: seq<Part>)
    requires forall p :: p in t ==> p.start <= p.end
    requires forall i :: 0 <= i < |t| - 1 ==> t[i].end < t[i + 1].start
    ensures Ascending(t)
  {
    forall i, j | 0 <= i < j < |t| ensures t[i].end < t[j].start {
      var k := i + 1;
      while k < j
        invariant i < k <= j
        invariant t[i].end < t[k].start
      {
        assert t[k] in t;
        k := k + 1;
      }
    }
  }
}
