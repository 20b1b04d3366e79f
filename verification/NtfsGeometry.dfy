/** The NTFS boot sector before and after the resize, and the sizes that the program expects
    the resizer and the inspection to report. */
module NtfsGeometry {
  import opened Bytes
  import opened PowersOfTwo
  import opened Gpt
  import opened ShrinkPlan

  /** The largest source the native primitives accept, 8 TiB. */
  const NATIVE_MAX := 8796093022208

  const MAGIC: Bytes := [0x4e, 0x54, 0x46, 0x53, 0x20, 0x20, 0x20, 0x20]

  function ReadAt(image: Bytes, off: nat, n: nat): Bytes {
    if off >= |image| then [] else if off + n > |image| then image[off..] else image[off..off + n]
  }

  /** Signature, magic and sector size of a boot sector. */
  predicate SignatureOk(raw: Bytes, sector: int) {
    && SectorOk(sector) && |raw| == sector
    && raw[3..11] == MAGIC && raw[510] == 0x55 && raw[511] == 0xaa
    && U16(raw, 11) == sector
  }

  function Units(raw: Bytes): nat
    requires |raw| >= 512
  {
    raw[13]
  }

  function Total(raw: Bytes): nat
    requires |raw| >= 512
  {
    U64(raw, 40)
  }

  /** The two copies of the file table's start, in clusters. */
  predicate TablesOk(raw: Bytes, clusters: int)
    requires |raw| >= 512
  {
    0 < U64(raw, 48) < clusters && 0 < U64(raw, 56) < clusters && U64(raw, 48) != U64(raw, 56)
  }

  predicate UnitsOk(units: nat, sector: int) {
    units > 0 && BitAnd(units, units - 1) == 0 && 512 <= units * sector <= 65536
  }

  predicate ExtentOk(raw: Bytes, size: int, sector: int)
    requires |raw| >= 512
  {
    UnitsOk(Units(raw), sector) && (Total(raw) + 1) * sector == size && TablesOk(raw, Total(raw) / Units(raw))
  }

  /** `boot_sector`: the sector and the cluster size, or a refusal. */
  function BootSector(image: Bytes, size: int, sector: int): Option<(Bytes, int)> {
    if !(MIB <= size <= NATIVE_MAX) || !SectorOk(sector) || !WholeSectors(size, sector) then None
    else
      var raw := ReadAt(image, 0, sector);
      if !SignatureOk(raw, sector) || !ExtentOk(raw, size, sector) || ReadAt(image, size - sector, sector) != raw
      then None
      else Some((raw, Units(raw) * sector))
  }

  function Unsized(raw: Bytes): Bytes
    requires |raw| >= 512
  {
    raw[..40] + Zeros(24) + raw[64..]
  }

  /** What the resize may do to the boot sector. */
  predicate RewrittenOk(image: Bytes, target: int, sector: int, originalBoot: Bytes)
    requires SectorOk(sector) && |originalBoot| == sector && Units(originalBoot) > 0 && MIB <= target
  {
    var current := ReadAt(image, 0, sector);
    var units := Units(originalBoot);
    var clusters := (target - sector) / (units * sector);
    && |current| == sector
    && Unsized(originalBoot) == Unsized(current)
    && Total(current) == clusters * units
    && TablesOk(current, clusters)
    && ReadAt(image, target - sector, sector) == current
  }

  /** `resized_boot_sector`. */
  function ResizedBootSector(image: Bytes, originalSize: int, target: int, sector: int, originalBoot: Bytes)
    : Option<(Bytes, int)>
  {
    if !(MIB <= target < originalSize <= NATIVE_MAX) || !SectorOk(sector) || !WholeSectors(originalSize, sector)
       || target % MIB != 0 || !SignatureOk(originalBoot, sector)
       || !ExtentOk(originalBoot, originalSize, sector) || !RewrittenOk(image, target, sector, originalBoot)
    then None
    else Some((ReadAt(image, 0, sector), Units(originalBoot) * sector))
  }

  // ---- boot sectors, printed ----

  /** An NTFS boot sector: what the checks look at, and the bytes between. */
  datatype Boot = Boot(head: Bytes, units: byte, middle: Bytes, total: nat, mft: nat, mirror: nat, code: Bytes,
                       tail: Bytes)

  predicate BootFits(b: Boot, sector: int) {
    && SectorOk(sector) && |b.head| == 3 && |b.middle| == 26 && |b.code| == 446 && |b.tail| == sector - 512
    && b.total < 0x1_0000_0000_0000_0000 && b.mft < 0x1_0000_0000_0000_0000 && b.mirror < 0x1_0000_0000_0000_0000
  }

  function BootBytes(b: Boot, sector: int): (r: Bytes)
    requires BootFits(b, sector)
    ensures |r| == sector
  {
    b.head + [0x4e, 0x54, 0x46, 0x53, 0x20, 0x20, 0x20, 0x20] + ToLe(sector, 2) + [b.units] + b.middle
    + ToLe(b.total, 8) + ToLe(b.mft, 8) + ToLe(b.mirror, 8) + b.code + [0x55, 0xaa] + b.tail
  }

  /** The volume: clusters of a power of two of sectors, at most 64 KiB, one sector less than the
      partition, with both copies of the file table's start in it and apart. */
  predicate Describes(b: Boot, size: int, sector: int) {
    && PowerOfTwo(b.units) && 512 <= b.units * sector <= 65536
    && b.total * sector + sector == size
    && InVolume(b, b.total / b.units)
  }

  predicate InVolume(b: Boot, clusters: int) {
    1 <= b.mft <= clusters - 1 && 1 <= b.mirror <= clusters - 1 && b.mft != b.mirror
  }

  /** These bytes stand at that offset. */
  predicate StandsAt(image: Bytes, off: int, raw: Bytes) {
    0 <= off && off + |raw| <= |image| && image[off..off + |raw|] == raw
  }

  lemma BootSlices(b: Boot, sector: int)
    requires BootFits(b, sector)
    ensures var r := BootBytes(b, sector);
            && r[0..3] == b.head && r[3..11] == MAGIC && r[11..13] == ToLe(sector, 2) && r[13] == b.units
            && r[14..40] == b.middle && r[40..48] == ToLe(b.total, 8) && r[48..56] == ToLe(b.mft, 8)
            && r[56..64] == ToLe(b.mirror, 8) && r[64..510] == b.code && r[510] == 0x55 && r[511] == 0xaa
            && r[512..] == b.tail
  {
    hide ToLe;
  }

  lemma BootReadsBack(b: Boot, sector: int)
    requires BootFits(b, sector)
    ensures var r := BootBytes(b, sector);
            && SignatureOk(r, sector) && Units(r) == b.units && Total(r) == b.total
            && U64(r, 48) == b.mft && U64(r, 56) == b.mirror
            && Unsized(r) == Unsized(BootBytes(b.(total := 0, mft := 0, mirror := 0), sector))
  {
    hide BootBytes, ToLe;
    BootSlices(b, sector);
    BootSlices(b.(total := 0, mft := 0, mirror := 0), sector);
    Pow256Values();
    LeOfToLe(sector, 2);
    LeOfToLe(b.total, 8);
    LeOfToLe(b.mft, 8);
    LeOfToLe(b.mirror, 8);
    SameOutside(BootBytes(b, sector), BootBytes(b.(total := 0, mft := 0, mirror := 0), sector));
  }

  lemma SameOutside(a: Bytes, b: Bytes)
    requires |a| == |b| >= 512 && a[0..3] == b[0..3] && a[3..11] == b[3..11] && a[11..13] == b[11..13]
    requires a[13] == b[13] && a[14..40] == b[14..40] && a[64..510] == b[64..510]
    requires a[510] == b[510] && a[511] == b[511] && a[512..] == b[512..]
    ensures a[..40] == b[..40] && a[64..] == b[64..] && Unsized(a) == Unsized(b)
  {
    assert a[..40] == a[0..3] + a[3..11] + a[11..13] + [a[13]] + a[14..40];
    assert b[..40] == b[0..3] + b[3..11] + b[11..13] + [b[13]] + b[14..40];
    assert a[64..] == a[64..510] + [a[510], a[511]] + a[512..];
    assert b[64..] == b[64..510] + [b[510], b[511]] + b[512..];
  }

  function BootOf(raw: Bytes): Boot
    requires |raw| >= 512
  {
    Boot(raw[0..3], raw[13], raw[14..40], U64(raw, 40), U64(raw, 48), U64(raw, 56), raw[64..510], raw[512..])
  }

  lemma BootIsPrinted(raw: Bytes, sector: int)
    requires SignatureOk(raw, sector)
    ensures BootFits(BootOf(raw), sector) && raw == BootBytes(BootOf(raw), sector)
  {
    hide ToLe;
    var b := BootOf(raw);
    ToLeOfLe(raw[11..13]);
    ToLeOfLe(raw[40..48]);
    ToLeOfLe(raw[48..56]);
    ToLeOfLe(raw[56..64]);
    BootSlices(b, sector);
    hide BootBytes;
    SameOutside(raw, BootBytes(b, sector));
    SizesToo(raw, BootBytes(b, sector));
  }

  lemma SizesToo(a: Bytes, b: Bytes)
    requires |a| == |b| >= 64 && a[..40] == b[..40] && a[64..] == b[64..]
    requires a[40..48] == b[40..48] && a[48..56] == b[48..56] && a[56..64] == b[56..64]
    ensures a == b
  {
    assert a == a[..40] + a[40..48] + a[48..56] + a[56..64] + a[64..];
    assert b == b[..40] + b[40..48] + b[48..56] + b[56..64] + b[64..];
  }

  lemma ReadStands(image: Bytes, off: nat, raw: Bytes, n: nat)
    requires |raw| == n > 0
    ensures ReadAt(image, off, n) == raw <==> StandsAt(image, off, raw)
  {
  }

  /** The extent check, on a printed boot sector. */
  lemma ExtentTells(b: Boot, size: int, sector: int)
    requires BootFits(b, sector)
    ensures ExtentOk(BootBytes(b, sector), size, sector) <==> Describes(b, size, sector)
  {
    hide BootBytes, BitAnd, PowerOfTwo, SignatureOk, Unsized;
    BootReadsBack(b, sector);
    if b.units > 0 {
      BitTrick(b.units);
    } else {
      NoPower();
    }
    Successor(b.total, sector);
  }

  lemma NoPower()
    ensures !PowerOfTwo(0)
  {
  }

  /** A source is eligible precisely if it starts and ends with one printed boot sector that
      describes it. */
  lemma EligibleExactly(image: Bytes, size: int, sector: int)
    ensures BootSector(image, size, sector).Some? <==>
              && 1048576 <= size <= 8 * 1024 * GIB && SectorOk(sector) && WholeSectors(size, sector)
              && exists b :: BootFits(b, sector) && Describes(b, size, sector)
                   && StandsAt(image, 0, BootBytes(b, sector)) && StandsAt(image, size - sector, BootBytes(b, sector))
  {
    hide BootBytes, SignatureOk, ExtentOk, Describes, ReadAt, WholeSectors;
    if 1048576 <= size <= 8 * 1024 * GIB && SectorOk(sector) && WholeSectors(size, sector) {
      var raw := ReadAt(image, 0, sector);
      if BootSector(image, size, sector).Some? {
        SignedLength(raw, sector);
        BootIsPrinted(raw, sector);
        var b := BootOf(raw);
        ExtentTells(b, size, sector);
        ReadStands(image, 0, raw, sector);
        ReadStands(image, size - sector, raw, sector);
        assert BootFits(b, sector) && Describes(b, size, sector);
      }
      forall b | BootFits(b, sector) && Describes(b, size, sector) && StandsAt(image, 0, BootBytes(b, sector))
                 && StandsAt(image, size - sector, BootBytes(b, sector))
        ensures BootSector(image, size, sector) == Some((BootBytes(b, sector), b.units * sector))
      {
        BootReadsBack(b, sector);
        ExtentTells(b, size, sector);
        ReadStands(image, 0, BootBytes(b, sector), sector);
        ReadStands(image, size - sector, BootBytes(b, sector), sector);
      }
    }
  }

  lemma SignedLength(raw: Bytes, sector: int)
    requires SignatureOk(raw, sector)
    ensures |raw| == sector
  {
  }

  // ---- what the resizer and the inspection must report ----

  datatype Report = Report(device: int, volume: int, cluster: int, minimum: int)

  datatype TargetTest = TargetTest(device: int, volume: int, cluster: int, target: int)

  function VolumeBytes(target: int, sector: int, cluster: int): int
    requires cluster > 0
  {
    (target - sector) / cluster * cluster + sector
  }

  /** `parse_minimum`, on the numbers read from the text. */
  predicate MinimumOk(r: Report, size: int, sector: int, cluster: int)
    requires sector > 0 && cluster > 0
  {
    && r.device == size && r.cluster == cluster && 0 < r.minimum <= r.volume <= size
    && r.minimum % sector == 0 && (r.volume - sector) % cluster == 0 && size - r.volume < cluster
  }

  /** `validate_resize_target_test`. */
  predicate TargetTestOk(t: TargetTest, inspection: Report, target: int, sector: int) {
    && t.device == inspection.device && t.volume == inspection.volume && t.cluster == inspection.cluster
    && t.cluster > 0 && t.target == VolumeBytes(target, sector, t.cluster)
  }

  /** `parse_resized_minimum`. */
  predicate ResizedMinimumOk(r: Report, device: int, target: int, sector: int, cluster: int)
    requires sector > 0 && cluster > 0
  {
    && r.device == device && r.cluster == cluster && r.volume == VolumeBytes(target, sector, cluster)
    && 0 < r.minimum <= r.volume && r.minimum % sector == 0
  }

  // ---- arithmetic ----

  lemma {:induction false} ProductIsPower(a: nat, b: nat)
    requires PowerOfTwo(a) && PowerOfTwo(b)
    ensures PowerOfTwo(a * b)
  {
    if b > 1 {
      var half := b / 2;
      ProductIsPower(a, half);
      assert a * b == 2 * (a * half) by {
        assert b == 2 * half;
      }
      DoubleIsPower(a * half);
    }
  }

  lemma SectorIsPower(sector: int)
    requires SectorOk(sector)
    ensures PowerOfTwo(sector)
  {
    TwoToIsPower(9);
    TwoToIsPower(12);
    assert TwoTo(4) == 16;
    assert TwoTo(9) == 512;
    assert TwoTo(12) == 4096;
  }

  lemma DivideBelow(n: int, c: int, s: int)
    requires 0 < s <= c
    ensures (n * c - s) / c == n - 1
  {
    Successor(n - 1, c);
    QuotientIs(n * c - s, n - 1, c);
  }

  /** An admissible cluster divides a target of whole MiB, so the volume ends exactly one
      cluster, less the backup sector, before the end of the partition. */
  lemma TailSlack(target: int, sector: int, units: nat)
    requires SectorOk(sector) && UnitsOk(units, sector) && target % MIB == 0
    ensures var cluster := units * sector;
            && target - VolumeBytes(target, sector, cluster) == cluster - sector
            && (target - sector) / cluster * units * sector + sector == VolumeBytes(target, sector, cluster)
  {
    var cluster := units * sector;
    var n := WholeClusters(target, sector, units);
    ProductOrder(1, units, sector);
    DivideBelow(n, cluster, sector);
    Successor(n - 1, cluster);
    Regroup(n - 1, units, sector);
  }

  lemma WholeClusters(target: int, sector: int, units: nat) returns (n: int)
    requires SectorOk(sector) && UnitsOk(units, sector) && target % MIB == 0
    ensures target == n * (units * sector)
  {
    var cluster := units * sector;
    BitTrick(units);
    SectorIsPower(sector);
    ProductIsPower(units, sector);
    TwoToTwenty();
    hide PowerOfTwo, BitAnd;
    var m := PowersDivide(cluster, MIB);
    var t := target / MIB;
    Regroup(t, m, cluster);
    n := t * m;
  }

  // ---- what acceptance means ----

  lemma UnsizedAgree(a: Bytes, b: Bytes)
    requires |a| == |b| >= 512 && Unsized(a) == Unsized(b)
    ensures forall i :: 0 <= i < |a| && !(40 <= i < 64) ==> a[i] == b[i]
  {
    assert forall i :: 0 <= i < 40 ==> Unsized(a)[i] == a[i] && Unsized(b)[i] == b[i];
    assert forall i :: 64 <= i < |a| ==> Unsized(a)[i] == a[i] && Unsized(b)[i] == b[i];
  }

  /** An accepted resize: only the three size fields of the boot sector differ, its copy stands
      at the end of the target, and the volume it describes is the one expected elsewhere. */
  lemma ResizedMeaning(image: Bytes, originalSize: int, target: int, sector: int, originalBoot: Bytes,
                       current: Bytes, cluster: int)
    requires ResizedBootSector(image, originalSize, target, sector, originalBoot) == Some((current, cluster))
    ensures SectorOk(sector) && |current| == |originalBoot| == sector <= cluster
    ensures forall i :: 0 <= i < sector && !(40 <= i < 64) ==> current[i] == originalBoot[i]
    ensures target <= |image| && image[..sector] == current == image[target - sector..target]
    ensures Total(current) * sector + sector == VolumeBytes(target, sector, cluster)
    ensures target - VolumeBytes(target, sector, cluster) == cluster - sector
    ensures cluster == Units(current) * sector
  {
    hide VolumeBytes, Total, TablesOk;
    UnsizedAgree(originalBoot, current);
    TailSlack(target, sector, Units(originalBoot));
    assert ReadAt(image, target - sector, sector) == current;
    ProductOrder(1, Units(originalBoot), sector);
  }

  /** The checker of the dry run and the checker of the result expect that same volume. */
  lemma CheckersAgree(image: Bytes, originalSize: int, target: int, sector: int, originalBoot: Bytes,
                      current: Bytes, cluster: int, inspection: Report, dry: TargetTest, after: Report)
    requires ResizedBootSector(image, originalSize, target, sector, originalBoot) == Some((current, cluster))
    requires SectorOk(sector) && |current| >= 512 && cluster > 0
    requires MinimumOk(inspection, originalSize, sector, cluster)
    ensures TargetTestOk(dry, inspection, target, sector) ==> dry.target == Total(current) * sector + sector
    ensures ResizedMinimumOk(after, originalSize, target, sector, cluster) ==>
              after.volume == Total(current) * sector + sector < originalSize
  {
    ResizedMeaning(image, originalSize, target, sector, originalBoot, current, cluster);
    hide ResizedBootSector, VolumeBytes, Total;
  }

  /** The boot sector b has been made c: other sizes, for the whole clusters of the target. */
  predicate Resizes(b: Boot, c: Boot, target: int, sector: int)
    requires b.units > 0 && sector > 0
  {
    var clusters := (target - sector) / (b.units * sector);
    c == b.(total := c.total, mft := c.mft, mirror := c.mirror)
    && c.total == clusters * b.units && InVolume(c, clusters)
  }

  /** The resize was from the printed boot sector b, which described the source, to c, which stands
      at both ends of the target. */
  ghost predicate ResizedFrom(image: Bytes, originalSize: int, target: int, sector: int, originalBoot: Bytes, b: Boot,
                              c: Boot)
  {
    && BootFits(b, sector) && BootFits(c, sector) && originalBoot == BootBytes(b, sector)
    && Describes(b, originalSize, sector) && b.units > 0 && Resizes(b, c, target, sector)
    && StandsAt(image, 0, BootBytes(c, sector)) && StandsAt(image, target - sector, BootBytes(c, sector))
  }

  /** A resize is accepted precisely if it is one of these. */
  lemma ResizedExactly(image: Bytes, originalSize: int, target: int, sector: int, originalBoot: Bytes)
    ensures ResizedBootSector(image, originalSize, target, sector, originalBoot).Some? <==>
              && 1048576 <= target < originalSize <= 8 * 1024 * GIB && target % 1048576 == 0
              && SectorOk(sector) && WholeSectors(originalSize, sector)
              && exists b, c :: ResizedFrom(image, originalSize, target, sector, originalBoot, b, c)
  {
    hide ResizedFrom, SignatureOk, ExtentOk, RewrittenOk, WholeSectors;
    if ResizedBootSector(image, originalSize, target, sector, originalBoot).Some? {
      AcceptedIsResized(image, originalSize, target, sector, originalBoot);
    }
    if 1048576 <= target < originalSize <= 8 * 1024 * GIB && SectorOk(sector) {
      forall b, c | ResizedFrom(image, originalSize, target, sector, originalBoot, b, c)
        ensures SignatureOk(originalBoot, sector) && |originalBoot| == sector && Units(originalBoot) > 0
        ensures ExtentOk(originalBoot, originalSize, sector) && RewrittenOk(image, target, sector, originalBoot)
      {
        ResizedIsAccepted(image, originalSize, target, sector, originalBoot, b, c);
      }
    }
  }

  lemma AcceptedIsResized(image: Bytes, originalSize: int, target: int, sector: int, originalBoot: Bytes)
    requires ResizedBootSector(image, originalSize, target, sector, originalBoot).Some?
    ensures SectorOk(sector) && |originalBoot| == sector && |ReadAt(image, 0, sector)| == sector
    ensures ResizedFrom(image, originalSize, target, sector, originalBoot, BootOf(originalBoot),
                        BootOf(ReadAt(image, 0, sector)))
  {
    hide ResizedBootSector, RewrittenOk, BootBytes, Unsized, SignatureOk, ExtentOk, BitAnd, PowerOfTwo, ReadAt,
         StandsAt, Le, Describes;
    AcceptedPieces(image, originalSize, target, sector, originalBoot);
    var current := ReadAt(image, 0, sector);
    BootIsPrinted(originalBoot, sector);
    BootIsPrinted(current, sector);
    ExtentTells(BootOf(originalBoot), originalSize, sector);
    ReadStands(image, 0, current, sector);
    ReadStands(image, target - sector, current, sector);
    SameBetween(originalBoot, current);
  }

  lemma AcceptedPieces(image: Bytes, originalSize: int, target: int, sector: int, originalBoot: Bytes)
    requires ResizedBootSector(image, originalSize, target, sector, originalBoot).Some?
    ensures var current := ReadAt(image, 0, sector);
            && MIB <= target && SectorOk(sector) && |originalBoot| == |current| == sector && Units(originalBoot) > 0
            && SignatureOk(originalBoot, sector) && SignatureOk(current, sector)
            && ExtentOk(originalBoot, originalSize, sector)
            && Total(current) == (target - sector) / (Units(originalBoot) * sector) * Units(originalBoot)
            && TablesOk(current, (target - sector) / (Units(originalBoot) * sector))
            && ReadAt(image, target - sector, sector) == current
            && forall i :: 0 <= i < sector && !(40 <= i < 64) ==> current[i] == originalBoot[i]
  {
    var current := ReadAt(image, 0, sector);
    UnsizedAgree(originalBoot, current);
    SignatureKept(originalBoot, current, sector);
    hide Unsized, BitAnd, ReadAt, TablesOk, Total, U16;
  }

  lemma SameBetween(a: Bytes, b: Bytes)
    requires |a| == |b| >= 512 && forall i :: 0 <= i < |a| && !(40 <= i < 64) ==> a[i] == b[i]
    ensures a[0..3] == b[0..3] && a[13] == b[13] && a[14..40] == b[14..40] && a[64..510] == b[64..510]
    ensures a[512..] == b[512..]
  {
  }

  lemma ResizedIsAccepted(image: Bytes, originalSize: int, target: int, sector: int, originalBoot: Bytes, b: Boot,
                          c: Boot)
    requires ResizedFrom(image, originalSize, target, sector, originalBoot, b, c)
    requires MIB <= target
    ensures SignatureOk(originalBoot, sector) && |originalBoot| == sector && Units(originalBoot) > 0
    ensures ExtentOk(originalBoot, originalSize, sector) && RewrittenOk(image, target, sector, originalBoot)
  {
    hide BootBytes, Unsized, BitAnd, PowerOfTwo, ReadAt, StandsAt, Le, Describes, SignatureOk, ExtentOk;
    BootReadsBack(b, sector);
    BootReadsBack(c, sector);
    ExtentTells(b, originalSize, sector);
    ReadStands(image, 0, BootBytes(c, sector), sector);
    ReadStands(image, target - sector, BootBytes(c, sector), sector);
    assert b.(total := 0, mft := 0, mirror := 0) == c.(total := 0, mft := 0, mirror := 0);
  }

  /** The checker of the result accepts precisely what the checker of a source would accept of a
      partition already cut to the target. */
  lemma ResizedIsMinimum(r: Report, device: int, target: int, sector: int, units: nat)
    requires SectorOk(sector) && UnitsOk(units, sector) && target % MIB == 0 && target > 0
    ensures var cluster := units * sector;
            ResizedMinimumOk(r, device, target, sector, cluster)
            <==> r.device == device && MinimumOk(r.(device := target), target, sector, cluster)
  {
    var cluster := units * sector;
    TailSlack(target, sector, units);
    ProductOrder(1, units, sector);
    hide UnitsOk;
    LastVolume(r.volume, target, sector, cluster);
  }

  /** One volume alone ends less than a cluster before the target. */
  lemma LastVolume(volume: int, target: int, sector: int, cluster: int)
    requires 0 < sector <= cluster && sector <= target
    requires target - VolumeBytes(target, sector, cluster) == cluster - sector
    ensures volume == VolumeBytes(target, sector, cluster)
            <==> volume <= target && (volume - sector) % cluster == 0 && target - volume < cluster
  {
    var n := (target - sector) / cluster;
    if volume <= target && (volume - sector) % cluster == 0 && target - volume < cluster {
      var k := (volume - sector) / cluster;
      assert volume - sector == k * cluster;
      assert (k + 1) * cluster == k * cluster + cluster && (n + 1) * cluster == n * cluster + cluster;
      if k < n {
        ProductOrder(k + 1, n, cluster);
      } else if k > n {
        ProductOrder(n + 1, k, cluster);
      }
    }
    MultipleLeaves(n, cluster);
  }

  lemma MultipleLeaves(n: int, c: int)
    requires c > 0
    ensures (n * c) % c == 0
  {
    QuotientIs(n * c, n, c);
  }

  /** A source accepted before the resize can afterwards be refused only for what the resize
      left in its boot sector, not for its original geometry. */
  lemma OriginalStaysValid(before: Bytes, size: int, sector: int, raw: Bytes, cluster: int, after: Bytes, target: int)
    requires BootSector(before, size, sector) == Some((raw, cluster))
    requires MIB <= target < size && target % MIB == 0
    ensures SectorOk(sector) && |raw| == sector && Units(raw) > 0
    ensures ResizedBootSector(after, size, target, sector, raw).Some? <==> RewrittenOk(after, target, sector, raw)
    ensures ResizedBootSector(after, size, target, sector, raw).Some? ==>
              ResizedBootSector(after, size, target, sector, raw).value.1 == cluster
  {
  }

  /** After the partition has been cut to the target, the eligibility check for a fresh source
      accepts the resized volume exactly when clusters are single sectors: otherwise the tail
      slack separates the volume from the end of the partition. */
  lemma FreshSourceExactly(image: Bytes, originalSize: int, target: int, sector: int, originalBoot: Bytes,
                           current: Bytes, cluster: int)
    requires ResizedBootSector(image, originalSize, target, sector, originalBoot) == Some((current, cluster))
    ensures BootSector(image, target, sector).Some? <==> cluster == sector
  {
    hide ResizedBootSector, SignatureOk, ExtentOk, WholeSectors, VolumeBytes, Total, Units;
    ResizedGuards(image, originalSize, target, sector, originalBoot);
    ResizedMeaning(image, originalSize, target, sector, originalBoot, current, cluster);
    SignatureKept(originalBoot, current, sector);
    ExtentExactly(image, originalSize, target, sector, originalBoot, current, cluster);
    assert ReadAt(image, 0, sector) == current && ReadAt(image, target - sector, sector) == current;
  }

  lemma ResizedGuards(image: Bytes, originalSize: int, target: int, sector: int, originalBoot: Bytes)
    requires ResizedBootSector(image, originalSize, target, sector, originalBoot).Some?
    ensures MIB <= target <= NATIVE_MAX && SectorOk(sector) && WholeSectors(target, sector)
    ensures SignatureOk(originalBoot, sector)
  {
    WholeMib(target, sector);
    hide SignatureOk, ExtentOk, RewrittenOk, WholeSectors;
  }

  lemma WholeMib(target: int, sector: int)
    requires target % MIB == 0 && SectorOk(sector)
    ensures WholeSectors(target, sector)
  {
    var q := target / MIB;
    assert target == 512 * (2048 * q) && target == 4096 * (256 * q);
  }

  lemma SignatureKept(originalBoot: Bytes, current: Bytes, sector: int)
    requires SignatureOk(originalBoot, sector) && |current| == sector
    requires forall i :: 0 <= i < sector && !(40 <= i < 64) ==> current[i] == originalBoot[i]
    ensures SignatureOk(current, sector)
  {
    assert current[3..11] == originalBoot[3..11] && current[11..13] == originalBoot[11..13];
  }

  lemma ExtentExactly(image: Bytes, originalSize: int, target: int, sector: int, originalBoot: Bytes,
                      current: Bytes, cluster: int)
    requires ResizedBootSector(image, originalSize, target, sector, originalBoot) == Some((current, cluster))
    ensures |current| >= 512 && (ExtentOk(current, target, sector) <==> cluster == sector)
  {
    ResizedMeaning(image, originalSize, target, sector, originalBoot, current, cluster);
    var units := Units(originalBoot);
    var clusters := (target - sector) / (units * sector);
    assert Units(current) == units;
    assert Total(current) == clusters * units && TablesOk(current, clusters) && UnitsOk(units, sector);
    hide ResizedBootSector, VolumeBytes, Total, TablesOk, UnitsOk, BitAnd, Units;
    DivideExact(clusters, units);
    Successor(Total(current), sector);
  }

  lemma DivideExact(n: int, c: int)
    requires c > 0
    ensures n * c / c == n
  {
    QuotientIs(n * c, n, c);
  }

  // ---- from the plan to the runner ----

  /** The size checks of the runner and of the preparation before it. */
  predicate RunnerAdmits(size: int, sector: int, target: int) {
    MIB <= target < size <= NATIVE_MAX && SectorOk(sector) && WholeSectors(size, sector) && target % MIB == 0
  }

  predicate PreparationAdmits(size: int, sector: int, target: int, minimum: int) {
    && MIB <= size <= NATIVE_MAX && SectorOk(sector)
    && 40 * GIB <= target < size && target % MIB == 0 && target >= minimum + GIB
  }

  /** The target of every accepted plan passes both guards exactly when the source is within
      the 8 TiB that the native tools support. */
  lemma PlanMeetsGuards(o: Oracles, p: Proposal, s: Snapshot, plan: Plan)
    requires PlanFor(o, p, s, plan)
    ensures SectorOk(s.sector)
    ensures var size := Scale(Sectors(plan.source), s.sector);
            && (RunnerAdmits(size, s.sector, plan.retained) <==> size <= NATIVE_MAX)
            && (PreparationAdmits(size, s.sector, plan.retained, p.minimum) <==> size <= NATIVE_MAX)
  {
    SourceIsWhole(o, p, s, plan);
    RetainedMeetsGuards(o, p, s, plan);
    hide PlanFor, Scale;
  }

  lemma SourceIsWhole(o: Oracles, p: Proposal, s: Snapshot, plan: Plan)
    requires PlanFor(o, p, s, plan)
    ensures SectorOk(s.sector) && WholeSectors(Scale(Sectors(plan.source), s.sector), s.sector)
  {
    hide NtfsShrinkPlan, WholeSectors, Scale, Admissible;
    ScaledIsWhole(Sectors(plan.source), s.sector);
  }

  lemma ScaledIsWhole(n: int, sector: int)
    requires SectorOk(sector)
    ensures WholeSectors(Scale(n, sector), sector)
  {
  }
}
