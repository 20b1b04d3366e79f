/** The reader and the update planner over a device whose reads may fail. */
module TableIo {
  import opened Bytes
  import opened Gpt
  import opened GptReader
  import opened ShrinkPlan
  import opened Preservation
  import opened UpdatePlan
  import opened RoundTrip
  import opened Images
  import opened Disk

  /** The trace has grown by reads only. */
  ghost predicate OnlyReads(before: seq<Event>, after: seq<Event>) {
    before <= after && forall i :: |before| <= i < |after| ==> after[i].Read?
  }

  /** Some event of the window is a read at this place that returned these bytes. */
  ghost predicate WasRead(trace: seq<Event>, lo: int, hi: int, offset: int, data: Bytes)
    requires 0 <= lo <= hi <= |trace|
  {
    exists k :: lo <= k < hi && trace[k] == Read(offset, data)
  }

  /** The window shows a read of each of the five regions, where the headers place them. */
  ghost predicate TableRead(trace: seq<Event>, lo: int, hi: int, device: Device, sector: int, m: Metadata)
    requires 0 <= lo <= hi <= |trace| && Shaped(m, sector)
  {
    && WasRead(trace, lo, hi, 0, m.mbr)
    && WasRead(trace, lo, hi, sector, m.ph)
    && WasRead(trace, lo, hi, Scale(SectorsIn(device.size, sector) - 1, sector), m.bh)
    && WasRead(trace, lo, hi, Scale(U64(m.ph, 72), sector), m.pa)
    && WasRead(trace, lo, hi, Scale(U64(m.bh, 72), sector), m.ba)
  }

  lemma WasReadGrows(a: seq<Event>, b: seq<Event>, lo: int, hi: int, offset: int, data: Bytes)
    requires a <= b && 0 <= lo <= |a| <= hi <= |b| && WasRead(a, lo, |a|, offset, data)
    ensures WasRead(b, lo, hi, offset, data)
  {
    var k :| lo <= k < |a| && a[k] == Read(offset, data);
    assert b[k] == a[k];
  }

  lemma TableReadGrows(a: seq<Event>, b: seq<Event>, lo: int, hi: int, device: Device, sector: int, m: Metadata)
    requires a <= b && 0 <= lo <= |a| <= hi <= |b| && Shaped(m, sector)
    requires TableRead(a, lo, |a|, device, sector, m)
    ensures TableRead(b, lo, hi, device, sector, m)
  {
    hide WasRead, Scale, SectorsIn;
    WasReadGrows(a, b, lo, hi, 0, m.mbr);
    WasReadGrows(a, b, lo, hi, sector, m.ph);
    WasReadGrows(a, b, lo, hi, Scale(SectorsIn(device.size, sector) - 1, sector), m.bh);
    WasReadGrows(a, b, lo, hi, Scale(U64(m.ph, 72), sector), m.pa);
    WasReadGrows(a, b, lo, hi, Scale(U64(m.bh, 72), sector), m.ba);
  }

  /** The table was read twice, one whole pass after the other, with the same observation; m is
      what the second pass read. */
  ghost predicate ReadInTwoPasses(o: Oracles, trace: seq<Event>, lo: int, device: Device, sector: int,
                                  layout: Layout, seen: Observation, m: Metadata)
  {
    exists mid, first :: PassesAt(o, trace, lo, mid, device, sector, layout, seen, first, m)
  }

  ghost predicate PassesAt(o: Oracles, trace: seq<Event>, lo: int, mid: int, device: Device, sector: int,
                           layout: Layout, seen: Observation, first: Metadata, m: Metadata)
  {
    && 0 <= lo <= mid <= |trace| && Shaped(first, sector) && Shaped(m, sector)
    && TableRead(trace, lo, mid, device, sector, first) && TableRead(trace, mid, |trace|, device, sector, m)
    && Observe(o, first, device, sector, layout) == Some(seen)
    && Observe(o, m, device, sector, layout) == Some(seen)
  }

  /** A bounded read of exactly the requested length. */
  method ExactRead(io: BlockDevice, device: Device, offset: int, length: int) returns (r: Option<Bytes>)
    requires io.Valid() && device.size == io.size
    modifies io`trace, io`faults
    ensures io.Valid() && io.SameDisk() && OnlyReads(old(io.trace), io.trace)
    ensures old(io.faults) <= io.faults && (r.Some? ==> io.faults == old(io.faults))
    ensures r.Some? ==> |r.value| == length && io.trace == old(io.trace) + [Read(offset, r.value)]
    ensures io.exclusive && io.faults == old(io.faults) ==> Exact(ImageReader(io.View()), device, offset, length) == r
  {
    if offset < 0 || length <= 0 || length > MAX_READ || offset + length > device.size {
      return None;
    }
    r := io.Pread(offset, length);
    if r.Some? && |r.value| != length {
      return None;
    }
  }

  /** The five reads of the table, where the headers place them. */
  method ReadTable(io: BlockDevice, device: Device, sector: int) returns (r: Option<Metadata>)
    requires io.Valid() && device.size == io.size && SectorOk(sector)
    modifies io`trace, io`faults
    ensures io.Valid() && io.SameDisk() && OnlyReads(old(io.trace), io.trace)
    ensures old(io.faults) <= io.faults && (r.Some? ==> io.faults == old(io.faults))
    ensures r.Some? ==> Shaped(r.value, sector)
    ensures r.Some? ==> TableRead(io.trace, |old(io.trace)|, |io.trace|, device, sector, r.value)
    ensures io.exclusive && io.faults == old(io.faults) ==> ReadMetadata(ImageReader(io.View()), device, sector) == r
  {
    hide TableRead, WasRead, ImageReader, Reserved, U64, U32;
    ghost var t := io.trace;
    var total := SectorsIn(device.size, sector);
    var mbr := ExactRead(io, device, 0, sector);
    if mbr.None? {
      return None;
    }
    var ph := ExactRead(io, device, sector, sector);
    if ph.None? {
      return None;
    }
    var bh := ExactRead(io, device, Scale(total - 1, sector), sector);
    if bh.None? {
      return None;
    }
    if !EntrySizeOk(U32(ph.value, 84)) {
      return None;
    }
    var length := Scale(Reserved(U32(ph.value, 80), U32(ph.value, 84), sector), sector);
    var pa := ExactRead(io, device, Scale(U64(ph.value, 72), sector), length);
    if pa.None? {
      return None;
    }
    var ba := ExactRead(io, device, Scale(U64(bh.value, 72), sector), length);
    if ba.None? {
      return None;
    }
    hide Exact;
    var m := Metadata(mbr.value, ph.value, pa.value, ba.value, bh.value);
    FiveReads(t, io.trace, device, sector, m);
    return Some(m);
  }

  lemma FiveReads(a: seq<Event>, b: seq<Event>, device: Device, sector: int, m: Metadata)
    requires Shaped(m, sector)
    requires b == a + [Read(0, m.mbr)] + [Read(sector, m.ph)]
                  + [Read(Scale(SectorsIn(device.size, sector) - 1, sector), m.bh)]
                  + [Read(Scale(U64(m.ph, 72), sector), m.pa)] + [Read(Scale(U64(m.bh, 72), sector), m.ba)]
    ensures TableRead(b, |a|, |b|, device, sector, m)
  {
    hide Scale, SectorsIn, Shaped;
    var n := |a|;
    assert b[n] == Read(0, m.mbr) && b[n + 1] == Read(sector, m.ph);
    assert b[n + 2].Read? && b[n + 3].Read? && b[n + 4].Read?;
  }

  /** Checks on the bytes that were read, ending in the normalised inventory. */
  method DecodeTable(o: Oracles, m: Metadata, device: Device, sector: int) returns (r: Option<Snapshot>)
    requires Shaped(m, sector)
    ensures r == Decode(o, m, device, sector)
  {
    if !DeviceOk(device) || !WholeSectors(device.size, sector) {
      return None;
    }
    ReservedFits(m, sector);
    var count, entry := EntryCount(m), EntryBytes(m);
    hide HeadersOk, CrcsOk, Entries, ExtensionsClear, SnapshotPreimage, Normalize, ArrayFits;
    if !HeadersOk(o, m, SectorsIn(device.size, sector), sector) {
      return None;
    }
    assert Holds(m.pa, entry, count) && Holds(m.ba, entry, count) by {
      HoldsBoth(m, sector);
    }
    if !CrcsOk(o, m, entry, count) {
      return None;
    }
    var parts := ParseEntries(m.pa, entry, count);
    if parts.None? {
      return None;
    }
    var raw := Snapshot(device, sector, U64(m.ph, 40), U64(m.ph, 48), count, entry, U64(m.ph, 72), U64(m.bh, 72),
                        U128(m.ph, 56), o.sha(SnapshotPreimage(m, device, sector)), parts.value);
    r := NormalizeSnapshot(o, raw, Some(device));
  }

  lemma HoldsBoth(m: Metadata, sector: int)
    requires Shaped(m, sector) && ArrayFits(m, sector)
    ensures Holds(m.pa, EntryBytes(m), EntryCount(m)) && Holds(m.ba, EntryBytes(m), EntryCount(m))
  {
  }

  method MaskTable(m: Metadata, sector: int, layout: Layout) returns (r: Metadata)
    requires MaskFits(m, sector, layout)
    ensures r == Masked(m, sector, layout)
  {
    var ph := new byte[|m.ph|](i requires 0 <= i < |m.ph| => m.ph[i]);
    var bh := new byte[|m.bh|](i requires 0 <= i < |m.bh| => m.bh[i]);
    var pa := new byte[|m.pa|](i requires 0 <= i < |m.pa| => m.pa[i]);
    var ba := new byte[|m.ba|](i requires 0 <= i < |m.ba| => m.ba[i]);
    assert ph[..] == m.ph && bh[..] == m.bh && pa[..] == m.pa && ba[..] == m.ba;
    hide MaskHeader, MaskArray, EntrySpan;
    MaskHeaderInPlace(ph);
    MaskHeaderInPlace(bh);
    MaskArrayInPlace(pa, EntryBytes(m), layout);
    MaskArrayInPlace(ba, EntryBytes(m), layout);
    return Metadata(m.mbr, ph[..], pa[..], ba[..], bh[..]);
  }

  /** The inventory together with its preservation proof. */
  method ObserveTable(o: Oracles, m: Metadata, device: Device, sector: int, layout: Layout)
    returns (r: Option<Observation>)
    requires Shaped(m, sector)
    ensures r == Observe(o, m, device, sector, layout)
  {
    var snapshot := DecodeTable(o, m, device, sector);
    if snapshot.None? {
      return None;
    }
    if !LayoutOk(layout, snapshot.value.count) || !BindingOk(snapshot.value.parts, layout) {
      return None;
    }
    LayoutFits(o, m, device, sector, layout);
    hide Decode, BindingOk, Masked, FrameAll, Text, ProofHeader;
    var masked := MaskTable(m, sector, layout);
    var preimage := Text("ro-gpt-ntfs-tail-preservation-v1") + [0]
                    + ProofHeader(m, device, sector, layout) + FrameAll(masked);
    return Some(Observation(snapshot.value, o.sha(preimage)));
  }

  /** `verified_ntfs_snapshot`: two whole passes that must agree; the last one is kept. */
  method VerifiedNtfsSnapshot(o: Oracles, io: BlockDevice, device: Device, sector: int, layout: Layout)
    returns (r: Option<(Observation, Metadata)>)
    requires io.Valid() && device.size == io.size && SectorOk(sector)
    modifies io`trace, io`faults
    ensures io.Valid() && io.SameDisk() && OnlyReads(old(io.trace), io.trace)
    ensures old(io.faults) <= io.faults && (r.Some? ==> io.faults == old(io.faults))
    ensures r.Some? ==> Shaped(r.value.1, sector)
    ensures r.Some? ==> Observe(o, r.value.1, device, sector, layout) == Some(r.value.0)
    ensures r.Some? ==>
              ReadInTwoPasses(o, io.trace, |old(io.trace)|, device, sector, layout, r.value.0, r.value.1)
    ensures r.Some? && io.exclusive ==> ReadMetadata(ImageReader(io.View()), device, sector) == Some(r.value.1)
    ensures io.exclusive && io.faults == old(io.faults) ==>
              (r.Some? <==> ReadNtfs(o, ImageReader(io.View()), device, sector, layout).Some?)
  {
    hide Observe, ReadMetadata, TableRead, ImageReader;
    ghost var t0 := io.trace;
    var first := ReadTable(io, device, sector);
    if first.None? {
      return None;
    }
    var seen := ObserveTable(o, first.value, device, sector, layout);
    if seen.None? {
      return None;
    }
    ghost var t1 := io.trace;
    var second := ReadTable(io, device, sector);
    if second.None? {
      return None;
    }
    var again := ObserveTable(o, second.value, device, sector, layout);
    if again != seen {
      return None;
    }
    TableReadGrows(t1, io.trace, |t0|, |t1|, device, sector, first.value);
    assert PassesAt(o, io.trace, |t0|, |t1|, device, sector, layout, seen.value, first.value, second.value);
    return Some((again.value, second.value));
  }

  /** What an accepted update consists of. */
  datatype Update = Update(before: Snapshot, plan: Plan, captured: Metadata, changed: Metadata)

  /** The patches are exactly those the approved table and plan call for, and the
      patched table passes the reader and the layout check. */
  ghost predicate Justified(o: Oracles, p: Proposal, guid: Guid, proof: Digest, u: Update) {
    && Approved(o, p, u.before, u.plan, guid, u.captured, proof)
    && u.plan.newEnd >= 0 && u.plan.rootStart >= 0 && u.plan.rootEnd >= 0
    && Patchable(u.captured, u.before.sector, ChangeOf(u.plan, guid))
    && u.changed == NewMetadata(o, u.captured, u.before.sector, ChangeOf(u.plan, guid))
    && Shaped(u.changed, u.before.sector)
    && Observe(o, u.changed, u.before.device, u.before.sector, LayoutOf(u.plan)).Some?
  }

  /** The image holds the approved table, and its update would stay within the JSON limit. */
  ghost predicate Updatable(o: Oracles, p: Proposal, guid: Guid, proof: Digest, img: Bytes) {
    exists u :: UpdateOf(o, p, guid, proof, img, u)
  }

  ghost predicate UpdateOf(o: Oracles, p: Proposal, guid: Guid, proof: Digest, img: Bytes, u: Update) {
    && Justified(o, p, guid, proof, u)
    && ReadMetadata(ImageReader(img), u.before.device, u.before.sector) == Some(u.captured)
  }

  /** Patch one copy: the array first, then the header that describes it. */
  method PatchCopyInPlace(o: Oracles, header: array<byte>, table: array<byte>, entry: nat, count: nat, c: Change)
    requires header != table && header.Length >= 512 && 92 <= U32(header[..], 12) <= header.Length
    requires SlotsFit(table[..], entry, c.layout) && Holds(table[..], entry, count)
    modifies header, table
    ensures table[..] == NewArray(old(table[..]), entry, c)
    ensures Holds(table[..], entry, count)
    ensures header[..] == NewHeader(o, old(header[..]), o.Crc(Used(table[..], entry, count)))
  {
    hide NewHeader, NewArray, EntrySpan, Used;
    PatchArrayInPlace(table, entry, c);
    PatchHeaderInPlace(o, header, o.Crc(Used(table[..], entry, count)));
  }

  method BuildChange(o: Oracles, m: Metadata, sector: int, c: Change) returns (r: Metadata)
    requires Patchable(m, sector, c)
    ensures r == NewMetadata(o, m, sector, c)
  {
    var entry, count := EntryBytes(m), EntryCount(m);
    var ph := new byte[|m.ph|](i requires 0 <= i < |m.ph| => m.ph[i]);
    var bh := new byte[|m.bh|](i requires 0 <= i < |m.bh| => m.bh[i]);
    var pa := new byte[|m.pa|](i requires 0 <= i < |m.pa| => m.pa[i]);
    var ba := new byte[|m.ba|](i requires 0 <= i < |m.ba| => m.ba[i]);
    assert ph[..] == m.ph && bh[..] == m.bh && pa[..] == m.pa && ba[..] == m.ba;
    hide NewHeader, NewArray, EntrySpan, Used;
    PatchCopyInPlace(o, bh, ba, entry, count, c);
    PatchCopyInPlace(o, ph, pa, entry, count, c);
    return Metadata(m.mbr, ph[..], pa[..], ba[..], bh[..]);
  }

  /** Every check of the update planner, as one approved image meets it. */
  lemma UpdateMeets(o: Oracles, p: Proposal, guid: Guid, proof: Digest, img: Bytes, u: Update)
    requires UpdateOf(o, p, guid, proof, img, u)
    ensures NtfsShrinkPlan(o, p) == Planned(u.plan) && Normalize(o, p.snapshot) == Some(u.before)
    ensures FreshGuid(u.before, guid)
    ensures ReadNtfs(o, ImageReader(img), u.before.device, u.before.sector, LayoutOf(u.plan))
            == Some(Observation(u.before, proof))
    ensures SectorOk(u.before.sector) && Shaped(u.changed, u.before.sector)
    ensures var seen := Observe(o, u.changed, u.before.device, u.before.sector, LayoutOf(u.plan));
            seen.Some? && VerifyCreatedLayout(o, p, guid, proof, seen.value).Some?
  {
    hide NtfsShrinkPlan, Normalize, FreshGuid, ReadMetadata, Observe, VerifyCreatedLayout, NewMetadata, ImageReader;
    var c, n, post := UpdateRoundTrip(o, p, u.before, u.plan, guid, u.captured, proof);
  }

  /** An approved image calls for one update only. */
  lemma OneUpdate(o: Oracles, p: Proposal, guid: Guid, proof: Digest, img: Bytes, u: Update, v: Update)
    requires UpdateOf(o, p, guid, proof, img, u) && UpdateOf(o, p, guid, proof, img, v)
    ensures u == v
  {
    hide Observe, NewMetadata, ReadMetadata, NtfsShrinkPlan, Normalize, FreshGuid;
  }

  /** `ntfs_gpt_update_plan`: read, check, patch copies in memory, re-read the patched
      copy through the reader, and read the disk once more. */
  method NtfsGptUpdatePlan(o: Oracles, io: BlockDevice, p: Proposal, guid: Guid, proof: Digest)
    returns (r: Option<Update>)
    requires io.Valid()
    requires Normalize(o, p.snapshot).Some? ==> p.snapshot.device.size == io.size
    modifies io`trace, io`faults
    ensures io.Valid() && io.SameDisk() && OnlyReads(old(io.trace), io.trace)
    ensures old(io.faults) <= io.faults && (r.Some? ==> io.faults == old(io.faults))
    ensures r.Some? ==> r.value.before.device.size == io.size && Justified(o, p, guid, proof, r.value)
    ensures r.Some? && io.exclusive ==>
              ReadMetadata(ImageReader(io.View()), r.value.before.device, r.value.before.sector)
              == Some(r.value.captured)
    ensures io.exclusive && io.faults == old(io.faults) ==>
              (r.Some? <==> Updatable(o, p, guid, proof, io.View()))
  {
    hide NtfsShrinkPlan, Normalize, Observe, ReadMetadata, FreshGuid, NewMetadata, VerifyCreatedLayout, ExpectedParts,
         Decode, ReadInTwoPasses, ImageReader, PlannedSnapshot;
    ghost var img := io.View();
    forall u | UpdateOf(o, p, guid, proof, img, u)
      ensures NtfsShrinkPlan(o, p) == Planned(u.plan) && Normalize(o, p.snapshot) == Some(u.before)
      ensures FreshGuid(u.before, guid)
      ensures ReadNtfs(o, ImageReader(img), u.before.device, u.before.sector, LayoutOf(u.plan))
              == Some(Observation(u.before, proof))
      ensures SectorOk(u.before.sector) && Shaped(u.changed, u.before.sector)
      ensures Observe(o, u.changed, u.before.device, u.before.sector, LayoutOf(u.plan)).Some?
      ensures VerifyCreatedLayout(
                o, p, guid, proof,
                Observe(o, u.changed, u.before.device, u.before.sector, LayoutOf(u.plan)).value).Some?
    {
      UpdateMeets(o, p, guid, proof, img, u);
    }
    var planning := PlanShrink(o, p);
    var normal := NormalizeSnapshot(o, p.snapshot, None);
    if planning.Refused? || normal.None? || !FreshGuid(normal.value, guid) {
      return None;
    }
    var plan, before := planning.plan, normal.value;
    assert before.device == p.snapshot.device;
    var initial := VerifiedNtfsSnapshot(o, io, before.device, before.sector, LayoutOf(plan));
    if initial.None? || initial.value.0 != Observation(before, proof) {
      return None;
    }
    var m := initial.value.1;
    ApprovedIsReady(o, p, before, plan, guid, m, proof);
    var c := ChangeOf(plan, guid);
    var changed := BuildChange(o, m, before.sector, c);
    ghost var c', n', post := UpdateRoundTrip(o, p, before, plan, guid, m, proof);
    hide Approved, Ready, Patchable;
    var seen := ObserveTable(o, changed, before.device, before.sector, LayoutOf(plan));
    if seen.None? {
      return None;
    }
    var verified := VerifyLayout(o, p, guid, proof, seen.value);
    if verified.None? {
      return None;
    }
    var final := VerifiedNtfsSnapshot(o, io, before.device, before.sector, LayoutOf(plan));
    if final.None? || final.value.0 != initial.value.0 {
      return None;
    }
    assert io.exclusive ==> UpdateOf(o, p, guid, proof, img, Update(before, plan, m, changed));
    return Some(Update(before, plan, m, changed));
  }
}
