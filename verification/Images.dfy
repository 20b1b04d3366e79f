/** The five metadata regions on a disk image, and writing patches to it. */
module Images {
  import opened Bytes
  import opened Gpt
  import opened GptReader
  import opened ShrinkPlan
  import opened Preservation
  import opened UpdatePlan
  import opened RoundTrip

  /** A stretch of the disk, in bytes. */
  datatype Span = Span(offset: int, length: int) {
    predicate Apart(other: Span) {
      offset + length <= other.offset || other.offset + other.length <= offset
    }

    predicate Covers(i: int) {
      offset <= i < offset + length
    }
  }

  function ReservedBytes(s: Snapshot): int
    requires SectorOk(s.sector) && EntrySizeOk(s.entry)
  {
    Scale(Reserved(s.count, s.entry, s.sector), s.sector)
  }

  function Total(s: Snapshot): int
    requires SectorOk(s.sector)
  {
    SectorsIn(s.device.size, s.sector)
  }

  function MbrSpan(s: Snapshot): Span {
    Span(0, s.sector)
  }

  function PrimaryHeaderSpan(s: Snapshot): Span {
    Span(s.sector, s.sector)
  }

  function PrimaryArraySpan(s: Snapshot): Span
    requires SectorOk(s.sector) && EntrySizeOk(s.entry)
  {
    Span(Scale(s.primaryLba, s.sector), ReservedBytes(s))
  }

  function BackupArraySpan(s: Snapshot): Span
    requires SectorOk(s.sector) && EntrySizeOk(s.entry)
  {
    Span(Scale(s.backupLba, s.sector), ReservedBytes(s))
  }

  function BackupHeaderSpan(s: Snapshot): Span
    requires SectorOk(s.sector)
  {
    Span(Scale(Total(s) - 1, s.sector), s.sector)
  }

  /** All sectors partitions and gaps can lie in. */
  function UsableSpan(s: Snapshot): Span
    requires SectorOk(s.sector)
  {
    Span(Scale(s.first, s.sector), Scale(s.last + 1, s.sector) - Scale(s.first, s.sector))
  }

  /** Accepted geometry keeps the five regions on the disk, apart from each other and
      from every sector that a partition or a gap can occupy. */
  lemma RegionsApart(s: Snapshot)
    requires DeviceOk(s.device) && GeometryOk(s)
    ensures 0 < ReservedBytes(s) && 0 < s.sector
    ensures MbrSpan(s).Apart(PrimaryHeaderSpan(s)) && MbrSpan(s).Apart(PrimaryArraySpan(s))
    ensures MbrSpan(s).Apart(BackupArraySpan(s)) && MbrSpan(s).Apart(BackupHeaderSpan(s))
    ensures PrimaryHeaderSpan(s).Apart(PrimaryArraySpan(s)) && PrimaryHeaderSpan(s).Apart(BackupArraySpan(s))
    ensures PrimaryHeaderSpan(s).Apart(BackupHeaderSpan(s)) && PrimaryArraySpan(s).Apart(BackupArraySpan(s))
    ensures PrimaryArraySpan(s).Apart(BackupHeaderSpan(s)) && BackupArraySpan(s).Apart(BackupHeaderSpan(s))
    ensures UsableSpan(s).Apart(MbrSpan(s)) && UsableSpan(s).Apart(PrimaryHeaderSpan(s))
    ensures UsableSpan(s).Apart(PrimaryArraySpan(s)) && UsableSpan(s).Apart(BackupArraySpan(s))
    ensures UsableSpan(s).Apart(BackupHeaderSpan(s))
    ensures 0 <= PrimaryArraySpan(s).offset && 0 <= BackupArraySpan(s).offset && 0 <= BackupHeaderSpan(s).offset
    ensures PrimaryArraySpan(s).offset + ReservedBytes(s) <= s.device.size
    ensures BackupArraySpan(s).offset + ReservedBytes(s) <= s.device.size
    ensures BackupHeaderSpan(s).offset + s.sector == s.device.size
    ensures 2 * s.sector <= s.device.size
    ensures ReservedBytes(s) <= MAX_READ
  {
  }

  /** The bytes of a region. */
  function At(img: Bytes, span: Span): (r: Bytes)
    requires 0 <= span.offset && 0 <= span.length && span.offset + span.length <= |img|
    ensures |r| == span.length
  {
    img[span.offset..span.offset + span.length]
  }

  ghost predicate ImageOf(img: Bytes, s: Snapshot) {
    DeviceOk(s.device) && GeometryOk(s) && |img| == s.device.size
  }

  function PrimaryHeader(img: Bytes, s: Snapshot): Bytes
    requires ImageOf(img, s)
  {
    RegionsApart(s);
    At(img, PrimaryHeaderSpan(s))
  }

  function PrimaryArray(img: Bytes, s: Snapshot): Bytes
    requires ImageOf(img, s)
  {
    RegionsApart(s);
    At(img, PrimaryArraySpan(s))
  }

  function BackupArray(img: Bytes, s: Snapshot): Bytes
    requires ImageOf(img, s)
  {
    RegionsApart(s);
    At(img, BackupArraySpan(s))
  }

  function BackupHeader(img: Bytes, s: Snapshot): Bytes
    requires ImageOf(img, s)
  {
    RegionsApart(s);
    At(img, BackupHeaderSpan(s))
  }

  function Mbr(img: Bytes, s: Snapshot): Bytes
    requires ImageOf(img, s)
  {
    RegionsApart(s);
    At(img, MbrSpan(s))
  }

  /** The image's metadata is m. */
  ghost predicate Carries(img: Bytes, s: Snapshot, m: Metadata)
    requires ImageOf(img, s)
  {
    && Mbr(img, s) == m.mbr
    && PrimaryHeader(img, s) == m.ph && PrimaryArray(img, s) == m.pa
    && BackupArray(img, s) == m.ba && BackupHeader(img, s) == m.bh
  }

  function ImageReader(img: Bytes): Reader {
    (offset: int, length: int) =>
      if 0 <= offset && 0 <= length && offset + length <= |img| then Some(img[offset..offset + length]) else None
  }

  lemma ExactAt(img: Bytes, device: Device, span: Span)
    requires |img| == device.size
    requires 0 <= span.offset && 0 < span.length <= MAX_READ && span.offset + span.length <= |img|
    ensures Exact(ImageReader(img), device, span.offset, span.length) == Some(At(img, span))
  {
  }

  /** Each region, read where it lies, is what the image holds there. */
  lemma RegionsRead(img: Bytes, s: Snapshot)
    requires ImageOf(img, s)
    ensures Exact(ImageReader(img), s.device, 0, s.sector) == Some(Mbr(img, s))
    ensures Exact(ImageReader(img), s.device, s.sector, s.sector) == Some(PrimaryHeader(img, s))
    ensures Exact(ImageReader(img), s.device, s.device.size - s.sector, s.sector) == Some(BackupHeader(img, s))
    ensures Exact(ImageReader(img), s.device, Scale(s.primaryLba, s.sector), ReservedBytes(s))
            == Some(PrimaryArray(img, s))
    ensures Exact(ImageReader(img), s.device, Scale(s.backupLba, s.sector), ReservedBytes(s))
            == Some(BackupArray(img, s))
  {
    RegionsApart(s);
    hide Exact, Scale, Reserved, GeometryOk;
    ExactAt(img, s.device, MbrSpan(s));
    ExactAt(img, s.device, PrimaryHeaderSpan(s));
    ExactAt(img, s.device, BackupHeaderSpan(s));
    ExactAt(img, s.device, PrimaryArraySpan(s));
    ExactAt(img, s.device, BackupArraySpan(s));
  }

  /** Reading an image whose headers point where s says gives exactly what the image carries. */
  lemma ReadCarries(img: Bytes, s: Snapshot, m: Metadata)
    requires ImageOf(img, s) && Shaped(m, s.sector)
    requires U64(m.ph, 72) == s.primaryLba && U64(m.bh, 72) == s.backupLba
    requires EntryCount(m) == s.count && EntryBytes(m) == s.entry
    ensures Carries(img, s, m) ==> ReadMetadata(ImageReader(img), s.device, s.sector) == Some(m)
  {
    RegionsRead(img, s);
    hide Exact, Mbr, PrimaryHeader, PrimaryArray, BackupArray, BackupHeader;
  }

  /** Whatever was read from an image is what it carries. */
  lemma CarriesRead(img: Bytes, s: Snapshot, m: Metadata)
    requires ImageOf(img, s) && ReadMetadata(ImageReader(img), s.device, s.sector) == Some(m)
    requires U64(m.ph, 72) == s.primaryLba && U64(m.bh, 72) == s.backupLba
    requires EntryCount(m) == s.count && EntryBytes(m) == s.entry
    ensures Carries(img, s, m)
  {
    RegionsRead(img, s);
    hide Exact, Mbr, PrimaryHeader, PrimaryArray, BackupArray, BackupHeader;
  }

  // Patches

  datatype Patch = Patch(offset: int, original: Bytes, replacement: Bytes)

  /** One copy of the table: its array, then its header. */
  datatype Group = Group(table: Patch, header: Patch)

  function BackupGroup(s: Snapshot, m: Metadata, n: Metadata): Group
    requires SectorOk(s.sector)
  {
    Group(Patch(Scale(s.backupLba, s.sector), m.ba, n.ba), Patch(Scale(Total(s) - 1, s.sector), m.bh, n.bh))
  }

  function PrimaryGroup(s: Snapshot, m: Metadata, n: Metadata): Group
    requires SectorOk(s.sector)
  {
    Group(Patch(Scale(s.primaryLba, s.sector), m.pa, n.pa), Patch(s.sector, m.ph, n.ph))
  }

  function Apply(img: Bytes, p: Patch): Bytes
    requires 0 <= p.offset && p.offset + |p.replacement| <= |img|
  {
    Splice(img, p.offset, p.replacement)
  }

  predicate SameShape(m: Metadata, n: Metadata) {
    |m.mbr| == |n.mbr| && |m.ph| == |n.ph| && |m.pa| == |n.pa| && |m.ba| == |n.ba| && |m.bh| == |n.bh|
  }

  /** Patches for exactly the four table regions of s. */
  ghost predicate GroupsFit(s: Snapshot, m: Metadata, n: Metadata)
    requires DeviceOk(s.device) && GeometryOk(s)
  {
    && SameShape(m, n) && n.mbr == m.mbr
    && |m.ph| == s.sector && |m.bh| == s.sector
    && |m.pa| == ReservedBytes(s) && |m.ba| == ReservedBytes(s)
  }

  /** An image after one copy has been rewritten. */
  function ApplyGroup(img: Bytes, g: Group): Bytes
    requires 0 <= g.table.offset && g.table.offset + |g.table.replacement| <= |img|
    requires 0 <= g.header.offset && g.header.offset + |g.header.replacement| <= |img|
  {
    Apply(Apply(img, g.table), g.header)
  }

  lemma ApplyGroupKeeps(img: Bytes, g: Group, span: Span)
    requires 0 <= g.table.offset && g.table.offset + |g.table.replacement| <= |img|
    requires 0 <= g.header.offset && g.header.offset + |g.header.replacement| <= |img|
    requires 0 <= span.offset && 0 <= span.length && span.offset + span.length <= |img|
    requires span.Apart(Span(g.table.offset, |g.table.replacement|))
    requires span.Apart(Span(g.header.offset, |g.header.replacement|))
    ensures At(ApplyGroup(img, g), span) == At(img, span)
  {
  }

  lemma ApplyGroupSets(img: Bytes, g: Group)
    requires 0 <= g.table.offset && g.table.offset + |g.table.replacement| <= |img|
    requires 0 <= g.header.offset && g.header.offset + |g.header.replacement| <= |img|
    requires Span(g.table.offset, |g.table.replacement|).Apart(Span(g.header.offset, |g.header.replacement|))
    ensures At(ApplyGroup(img, g), Span(g.table.offset, |g.table.replacement|)) == g.table.replacement
    ensures At(ApplyGroup(img, g), Span(g.header.offset, |g.header.replacement|)) == g.header.replacement
  {
  }

  /** An image after all four patches, backup first. */
  function Patched(img: Bytes, s: Snapshot, m: Metadata, n: Metadata): Bytes
    requires ImageOf(img, s) && GroupsFit(s, m, n)
  {
    RegionsApart(s);
    ApplyGroup(ApplyGroup(img, BackupGroup(s, m, n)), PrimaryGroup(s, m, n))
  }

  /** The patched image carries the new metadata. */
  lemma PatchedCarries(img: Bytes, s: Snapshot, m: Metadata, n: Metadata)
    requires ImageOf(img, s) && GroupsFit(s, m, n) && Carries(img, s, m)
    ensures ImageOf(Patched(img, s, m, n), s) && Carries(Patched(img, s, m, n), s, n)
  {
    BackupApplied(img, s, m, n);
    RegionsApart(s);
    var p, mid := PrimaryGroup(s, m, n), ApplyGroup(img, BackupGroup(s, m, n));
    hide Scale, Reserved, Apply, ApplyGroup, GeometryOk, SectorsIn, BackupGroup;
    ApplyGroupKeeps(mid, p, MbrSpan(s));
    ApplyGroupKeeps(mid, p, BackupArraySpan(s));
    ApplyGroupKeeps(mid, p, BackupHeaderSpan(s));
    ApplyGroupSets(mid, p);
  }

  /** Half way: the backup copy is the new one. */
  lemma BackupApplied(img: Bytes, s: Snapshot, m: Metadata, n: Metadata)
    requires ImageOf(img, s) && GroupsFit(s, m, n) && Carries(img, s, m)
    ensures var mid := ApplyGroup(img, BackupGroup(s, m, n));
            ImageOf(mid, s) && Mbr(mid, s) == m.mbr && BackupArray(mid, s) == n.ba && BackupHeader(mid, s) == n.bh
  {
    RegionsApart(s);
    var b := BackupGroup(s, m, n);
    hide Scale, Reserved, Apply, GeometryOk, SectorsIn;
    ApplyGroupKeeps(img, b, MbrSpan(s));
    ApplyGroupSets(img, b);
  }

  /** The update of a readable disk image: afterwards the reader sees the planned
      inventory with the approved proof, or the JSON limit stops it. */
  lemma PatchedImageReads(o: Oracles, p: Proposal, s: Snapshot, plan: Plan, guid: Guid, img: Bytes, proof: Digest)
    returns (m: Metadata, n: Metadata, post: Snapshot)
    requires PlanFor(o, p, s, plan) && FreshGuid(s, guid)
    requires |img| == s.device.size
    requires ReadNtfs(o, ImageReader(img), s.device, s.sector, LayoutOf(plan)) == Some(Observation(s, proof))
    ensures ImageOf(img, s) && GroupsFit(s, m, n)
    ensures Approved(o, p, s, plan, guid, m, proof) && Carries(img, s, m)
    ensures post == s.(fingerprint := post.fingerprint, parts := ExpectedParts(s.parts, plan, guid))
    ensures ReadNtfs(o, ImageReader(Patched(img, s, m, n)), s.device, s.sector, LayoutOf(plan))
            == if o.jsonSize(post) <= MAX_JSON then Some(Observation(post, proof)) else None
    ensures o.jsonSize(post) <= MAX_JSON ==>
              VerifyCreatedLayout(o, p, guid, proof, Observation(post, proof)) == Some(post)
  {
    m := ReadMetadata(ImageReader(img), s.device, s.sector).value;
    var c;
    c, n, post := UpdateRoundTrip(o, p, s, plan, guid, m, proof);
    ApprovedGroupsFit(o, p, s, plan, guid, m, proof, c);
    hide NtfsShrinkPlan, Decode, NewMetadata, ExpectedParts, FreshGuid, VerifyCreatedLayout, Observe, Normalize;
    CarriesRead(img, s, m);
    PatchedCarries(img, s, m, n);
    ReadCarries(Patched(img, s, m, n), s, n);
  }

  /** An approved table has the shape and placement its inventory records, before and after. */
  lemma ApprovedGroupsFit(o: Oracles, p: Proposal, s: Snapshot, plan: Plan, guid: Guid, m: Metadata,
                          proof: Digest, c: Change)
    requires Approved(o, p, s, plan, guid, m, proof)
    requires plan.newEnd >= 0 && plan.rootStart >= 0 && plan.rootEnd >= 0 && c == ChangeOf(plan, guid)
    requires Patchable(m, s.sector, c)
    ensures DeviceOk(s.device) && GeometryOk(s)
    ensures var n := NewMetadata(o, m, s.sector, c);
            && GroupsFit(s, m, n)
            && U64(m.ph, 72) == s.primaryLba && U64(m.bh, 72) == s.backupLba
            && EntryCount(m) == s.count && EntryBytes(m) == s.entry
            && U64(n.ph, 72) == s.primaryLba && U64(n.bh, 72) == s.backupLba
            && EntryCount(n) == s.count && EntryBytes(n) == s.entry
  {
    ApprovedIsReady(o, p, s, plan, guid, m, proof);
    DecodedPlacement(o, m, s);
    hide Approved, Ready, Decode;
    SamePlacementAfter(o, m, s.sector, c);
    hide NewMetadata, Patchable;
  }

  /** A decoded inventory records where its table lies and how long its arrays are. */
  lemma DecodedPlacement(o: Oracles, m: Metadata, s: Snapshot)
    requires SectorOk(s.sector) && Shaped(m, s.sector) && Decode(o, m, s.device, s.sector) == Some(s)
    ensures DeviceOk(s.device) && GeometryOk(s)
    ensures U64(m.ph, 72) == s.primaryLba && U64(m.bh, 72) == s.backupLba
    ensures EntryCount(m) == s.count && EntryBytes(m) == s.entry
    ensures |m.pa| == ReservedBytes(s) && |m.ba| == ReservedBytes(s)
  {
    assert Admissible(s);
  }

  /** The change keeps the placement fields and the region lengths. */
  lemma SamePlacementAfter(o: Oracles, m: Metadata, sector: int, c: Change)
    requires Patchable(m, sector, c)
    ensures var n := NewMetadata(o, m, sector, c);
            && SameShape(m, n) && n.mbr == m.mbr
            && U64(n.ph, 72) == U64(m.ph, 72) && U64(n.bh, 72) == U64(m.bh, 72)
            && EntryCount(n) == EntryCount(m) && EntryBytes(n) == EntryBytes(m)
  {
    var entry, count := EntryBytes(m), EntryCount(m);
    NewHeaderFields(o, m.ph, o.Crc(Used(NewArray(m.pa, entry, c), entry, count)));
    NewHeaderFields(o, m.bh, o.Crc(Used(NewArray(m.ba, entry, c), entry, count)));
    hide NewArray, NewHeader, Used, EntrySpan;
  }
}
