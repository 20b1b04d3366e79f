/** Applying the planned patches gives a table that reads back as the planned inventory. */
module RoundTrip {
  import opened Bytes
  import opened Gpt
  import opened GptReader
  import opened FreeExtents
  import opened ShrinkPlan
  import opened Preservation
  import opened UpdatePlan

  /** The root GUID is new to the disk. */
  predicate FreshGuid(s: Snapshot, guid: Guid) {
    guid != 0 && guid != s.diskGuid && forall p :: p in s.parts ==> p.partGuid != guid
  }

  function WithNewEnd(parts: seq<Part>, number: int, newEnd: int): seq<Part> {
    seq(|parts|, i requires 0 <= i < |parts| =>
      if parts[i].number == number then parts[i].(end := newEnd) else parts[i])
  }

  function PlannedRoot(plan: Plan, guid: Guid): Part {
    Part(plan.rootNumber, plan.rootStart, plan.rootEnd, LINUX_DATA, guid, 0)
  }

  /** The rows the finished disk must show. */
  function ExpectedParts(parts: seq<Part>, plan: Plan, guid: Guid): seq<Part> {
    Sort(WithNewEnd(parts, plan.source.number, plan.newEnd) + [PlannedRoot(plan, guid)])
  }

  predicate SameHeader(a: Snapshot, b: Snapshot) {
    a.(fingerprint := b.fingerprint, parts := b.parts) == b
  }

  /** `verify_ntfs_created_layout`: the observed inventory, if it is the planned one. */
  ghost function VerifyCreatedLayout(o: Oracles, p: Proposal, guid: Guid, proof: Digest, seen: Observation)
    : Option<Snapshot>
  {
    var planning, before := NtfsShrinkPlan(o, p), Normalize(o, p.snapshot);
    if planning.Refused? || before.None? || !FreshGuid(before.value, guid) || seen.proof != proof then None
    else if seen.snapshot.device != before.value.device then None
    else
      var current := Normalize(o, seen.snapshot);
      if current.None? || !SameHeader(before.value, current.value)
         || current.value.parts != ExpectedParts(before.value.parts, planning.plan, guid)
      then None else current
  }

  /** The program's check, with the loop that builds the expected rows. */
  method VerifyLayout(o: Oracles, p: Proposal, guid: Guid, proof: Digest, seen: Observation)
    returns (r: Option<Snapshot>)
    ensures r == VerifyCreatedLayout(o, p, guid, proof, seen)
  {
    var planning := PlanShrink(o, p);
    if planning.Refused? {
      return None;
    }
    var plan := planning.plan;
    var before := NormalizeSnapshot(o, p.snapshot, None);
    if before.None? || !FreshGuid(before.value, guid) || seen.proof != proof {
      return None;
    }
    var current := NormalizeSnapshot(o, seen.snapshot, Some(before.value.device));
    hide Normalize, NtfsShrinkPlan, FreshGuid, ExpectedParts;
    if current.None? {
      return None;
    }
    if !SameHeader(before.value, current.value) {
      return None;
    }
    var expected := BuildExpected(before.value.parts, plan, guid);
    if current.value.parts != expected {
      return None;
    }
    return current;
  }

  method BuildExpected(parts: seq<Part>, plan: Plan, guid: Guid) returns (expected: seq<Part>)
    ensures expected == ExpectedParts(parts, plan, guid)
  {
    expected := [];
    for n := 0 to |parts|
      invariant expected == WithNewEnd(parts, plan.source.number, plan.newEnd)[..n]
    {
      var part := parts[n];
      expected := expected + [if part.number == plan.source.number then part.(end := plan.newEnd) else part];
    }
    assert expected == WithNewEnd(parts, plan.source.number, plan.newEnd);
    expected := Sort(expected + [PlannedRoot(plan, guid)]);
  }

  // The rows after the change

  /** Row q of the finished disk: the root, the cut source, or an untouched row. */
  ghost predicate FinalRow(s: Snapshot, plan: Plan, guid: Guid, q: Part) {
    || q == PlannedRoot(plan, guid)
    || q == plan.source.(end := plan.newEnd)
    || (q in s.parts && q.number != plan.source.number)
  }

  /** What the rows need to know about the plan and the inventory. */
  ghost predicate Fitting(s: Snapshot, plan: Plan, guid: Guid) {
    && Admissible(s) && Ascending(s.parts)
    && plan.source in s.parts
    && 1 <= plan.rootNumber <= s.count && (forall q :: q in s.parts ==> q.number != plan.rootNumber)
    && plan.source.start < plan.rootStart == plan.newEnd + 1 <= plan.source.end
    && plan.rootStart <= plan.rootEnd <= s.last
    && AvailableRange(s, plan.source, plan.rootStart, plan.rootEnd)
    && FreshGuid(s, guid)
    && |s.parts| < MAX_PARTITIONS
  }

  lemma PlanFits(o: Oracles, p: Proposal, s: Snapshot, plan: Plan, guid: Guid)
    requires PlanFor(o, p, s, plan) && FreshGuid(s, guid)
    ensures Fitting(s, plan, guid)
  {
    PlanIsSafe(o, p, s, plan);
    PlanPlaced(o, p, s, plan);
    NormalizeIsNormal(o, p.snapshot);
  }

  /** Two untouched rows of one inventory. */
  lemma RowsCompatible(s: Snapshot, a: Part, b: Part)
    requires PairwiseCompatible(s.parts) && a in s.parts && b in s.parts && a != b
    ensures Compatible(a, b)
  {
  }

  /** The new root keeps clear of every other partition. */
  lemma RootApart(s: Snapshot, plan: Plan, guid: Guid, q: Part)
    requires Fitting(s, plan, guid) && q in s.parts && q != plan.source
    ensures Apart(PlannedRoot(plan, guid), q) && q.number != plan.source.number
  {
    RowsCompatible(s, q, plan.source);
    var x := Max(q.start, plan.rootStart);
    if x <= q.end && x <= plan.rootEnd {
      assert Within(q, x);
      assert Available(s, plan.source, x);
    }
  }

  lemma FinalRowsCompatible(s: Snapshot, plan: Plan, guid: Guid, a: Part, b: Part)
    requires Fitting(s, plan, guid)
    requires FinalRow(s, plan, guid, a) && FinalRow(s, plan, guid, b) && a.number != b.number
    ensures Compatible(a, b)
  {
    assert RowOk(s, plan.source);
    var root, cut := PlannedRoot(plan, guid), plan.source.(end := plan.newEnd);
    if a != root && a != cut {
      RootApart(s, plan, guid, a);
      RowsCompatible(s, a, plan.source);
    }
    if b != root && b != cut {
      RootApart(s, plan, guid, b);
      RowsCompatible(s, b, plan.source);
    }
    if a in s.parts && b in s.parts {
      RowsCompatible(s, a, b);
    }
  }

  lemma FinalRowOk(s: Snapshot, plan: Plan, guid: Guid, q: Part)
    requires Fitting(s, plan, guid) && FinalRow(s, plan, guid, q)
    ensures RowOk(s, q) && q.partGuid != s.diskGuid
  {
  }

  /** Any list of final rows with distinct slot numbers may stand in an inventory. */
  lemma FinalRowsPairwise(s: Snapshot, plan: Plan, guid: Guid, rows: seq<Part>)
    requires Fitting(s, plan, guid)
    requires forall q :: q in rows ==> FinalRow(s, plan, guid, q)
    requires forall i, j :: 0 <= i < j < |rows| ==> rows[i].number != rows[j].number
    ensures PairwiseCompatible(rows)
    ensures forall q :: q in rows ==> RowOk(s, q) && q.partGuid != s.diskGuid
  {
    forall i, j | 0 <= i < j < |rows| ensures Compatible(rows[i], rows[j]) {
      assert rows[i] in rows && rows[j] in rows;
      FinalRowsCompatible(s, plan, guid, rows[i], rows[j]);
    }
    forall q | q in rows ensures RowOk(s, q) && q.partGuid != s.diskGuid {
      FinalRowOk(s, plan, guid, q);
    }
  }

  /** The expected rows are exactly the final rows, in ascending extents. */
  lemma ExpectedRows(s: Snapshot, plan: Plan, guid: Guid)
    requires Fitting(s, plan, guid)
    ensures Ascending(ExpectedParts(s.parts, plan, guid))
    ensures forall q :: q in ExpectedParts(s.parts, plan, guid) <==> FinalRow(s, plan, guid, q)
  {
    var cut := WithNewEnd(s.parts, plan.source.number, plan.newEnd);
    var rows := cut + [PlannedRoot(plan, guid)];
    CutRows(s, plan, guid);
    forall q ensures q in rows <==> FinalRow(s, plan, guid, q) {
    }
    forall i, j | 0 <= i < j < |rows| ensures rows[i].number != rows[j].number {
      if j < |cut| {
        assert Compatible(s.parts[i], s.parts[j]);
      } else {
        assert s.parts[i] in s.parts;
      }
    }
    FinalRowsPairwise(s, plan, guid, rows);
    SortAscending(rows);
    SortLemma(rows);
  }

  lemma CutRows(s: Snapshot, plan: Plan, guid: Guid)
    requires Fitting(s, plan, guid)
    ensures forall q :: q in WithNewEnd(s.parts, plan.source.number, plan.newEnd) <==>
              q == plan.source.(end := plan.newEnd) || (q in s.parts && q.number != plan.source.number)
  {
    var cut := WithNewEnd(s.parts, plan.source.number, plan.newEnd);
    forall q
      ensures q in cut <==>
              q == plan.source.(end := plan.newEnd) || (q in s.parts && q.number != plan.source.number)
    {
      if q in cut {
        var i :| 0 <= i < |cut| && cut[i] == q;
        if s.parts[i].number == plan.source.number && s.parts[i] != plan.source {
          RowsCompatible(s, s.parts[i], plan.source);
        }
      }
      if q == plan.source.(end := plan.newEnd) {
        var i :| 0 <= i < |s.parts| && s.parts[i] == plan.source;
        assert cut[i] == q;
      }
      if q in s.parts && q.number != plan.source.number {
        var i :| 0 <= i < |s.parts| && s.parts[i] == q;
        assert cut[i] == q;
      }
    }
  }

  // The table after the change

  /** The change a plan asks for. */
  function ChangeOf(plan: Plan, guid: Guid): Change
    requires plan.newEnd >= 0 && plan.rootStart >= 0 && plan.rootEnd >= 0
  {
    Change(Layout(plan.source.number, plan.rootNumber), plan.newEnd, plan.rootStart, plan.rootEnd, guid)
  }

  /** A readable table, the inventory it decodes to, and a change that fits that inventory. */
  ghost predicate Ready(o: Oracles, m: Metadata, s: Snapshot, plan: Plan, guid: Guid, c: Change) {
    && SectorOk(s.sector) && Shaped(m, s.sector)
    && Decode(o, m, s.device, s.sector) == Some(s)
    && Fitting(s, plan, guid)
    && plan.newEnd >= 0 && plan.rootStart >= 0 && plan.rootEnd >= 0
    && c == ChangeOf(plan, guid)
  }

  lemma ReadyBounds(o: Oracles, m: Metadata, s: Snapshot, plan: Plan, guid: Guid, c: Change)
    requires Ready(o, m, s, plan, guid, c)
    ensures Patchable(m, s.sector, c)
    ensures s.count == EntryCount(m) && s.entry == EntryBytes(m)
    ensures c.layout.source <= s.count && c.layout.root <= s.count
    ensures TableOk(o, m, SectorsIn(s.device.size, s.sector), s.sector)
    ensures 0 <= s.device.size <= MAX_BYTES
  {
    assert RowOk(s, plan.source);
    LayoutFits(o, m, s.device, s.sector, c.layout);
  }

  /** The root slot is free and the source slot holds the source. */
  lemma ReadySlots(o: Oracles, m: Metadata, s: Snapshot, plan: Plan, guid: Guid, c: Change)
    requires Ready(o, m, s, plan, guid, c) && Patchable(m, s.sector, c)
    ensures !Occupied(Row(m.pa, EntryBytes(m), c.layout.root - 1))
    ensures SlotHolds(m.pa, EntryBytes(m), plan.source)
  {
    hide AvailableRange, Ascending, EntrySpan, FreshGuid, Entries, Le, TableOk, SlotHolds, Occupied, Row;
    DecodedRows(o, m, s.device, s.sector);
    hide Decode, Admissible;
    UnnumberedSlotIsFree(m.pa, EntryBytes(m), EntryCount(m), s.parts, c.layout.root - 1);
  }

  lemma UnnumberedSlotIsFree(table: Bytes, entry: nat, count: nat, parts: seq<Part>, n: nat)
    requires n < count && Holds(table, entry, n + 1)
    requires forall p: Part :: 1 <= p.number <= count && Holds(table, entry, p.number) && SlotHolds(table, entry, p)
                         ==> p in parts
    requires forall p :: p in parts ==> p.number != n + 1
    ensures !Occupied(Row(table, entry, n))
  {
    var row := Row(table, entry, n);
    var q := PartOf(row, n);
    assert SlotHolds(table, entry, q) <==> Occupied(row);
  }

  /** The new array decodes to final rows only, and to all of them. */
  lemma NewMembers(o: Oracles, m: Metadata, s: Snapshot, plan: Plan, guid: Guid, c: Change, q: Part)
    requires Ready(o, m, s, plan, guid, c) && Patchable(m, s.sector, c)
    ensures q in Entries(NewArray(m.pa, EntryBytes(m), c), EntryBytes(m), EntryCount(m))
            <==> FinalRow(s, plan, guid, q)
  {
    var table, entry, count := m.pa, EntryBytes(m), EntryCount(m);
    var changed := NewArray(table, entry, c);
    ReadyBounds(o, m, s, plan, guid, c);
    ReadySlots(o, m, s, plan, guid, c);
    DecodedRows(o, m, s.device, s.sector);
    EntriesLemma(changed, entry, count);
    hide NewArray, EntrySpan, Entries, Decode, TableOk, Admissible, AvailableRange, Ascending;
    assert FinalRow(s, plan, guid, q) ==> 1 <= q.number <= count by {
      if FinalRow(s, plan, guid, q) {
        FinalRowOk(s, plan, guid, q);
      }
    }
    if 1 <= q.number <= count {
      assert Holds(table, entry, q.number) && Holds(changed, entry, q.number) by {
        HoldsUpTo(table, entry, q.number, count);
        HoldsUpTo(changed, entry, q.number, count);
      }
      SlotIsFinal(s, plan, guid, c, table, entry, q);
    }
  }

  lemma HoldsUpTo(table: Bytes, entry: nat, k: nat, n: nat)
    requires k <= n && Holds(table, entry, n)
    ensures Holds(table, entry, k)
  {
  }

  lemma SlotIsFinal(s: Snapshot, plan: Plan, guid: Guid, c: Change, table: Bytes, entry: nat, q: Part)
    requires plan.newEnd >= 0 && plan.rootStart >= 0 && plan.rootEnd >= 0 && c == ChangeOf(plan, guid)
    requires SlotsFit(table, entry, c.layout) && ChangeFits(c)
    requires 1 <= q.number && Holds(table, entry, q.number) && Holds(NewArray(table, entry, c), entry, q.number)
    requires SlotHolds(table, entry, plan.source)
    requires q.number != plan.rootNumber && q.number != plan.source.number ==>
               (q in s.parts <==> SlotHolds(table, entry, q))
    requires plan.source in s.parts && forall p :: p in s.parts ==> p.number != plan.rootNumber
    ensures SlotHolds(NewArray(table, entry, c), entry, q) <==> FinalRow(s, plan, guid, q)
  {
    hide NewArray, EntrySpan;
    NewSlots(table, entry, c, q.number - 1);
  }

  /** The new table passes every check of the reader. */
  lemma NewTableOk(o: Oracles, m: Metadata, s: Snapshot, plan: Plan, guid: Guid, c: Change)
    requires Ready(o, m, s, plan, guid, c) && Patchable(m, s.sector, c)
    ensures Shaped(NewMetadata(o, m, s.sector, c), s.sector)
    ensures TableOk(o, NewMetadata(o, m, s.sector, c), SectorsIn(s.device.size, s.sector), s.sector)
  {
    ReadyBounds(o, m, s, plan, guid, c);
    hide Ready, Fitting, Patchable, HeaderOk, MbrOk, CopiesAgree, ArraysOk, NewArray, EntrySpan, Entries, Used;
    NewCountOk(o, m, s, plan, guid, c);
    NewShape(o, m, s.sector, c);
    NewHeadersOk(o, m, s.sector, c, SectorsIn(s.device.size, s.sector));
    NewArraysOk(o, m, s.sector, c);
    hide ArrayFits, Reserved, NewHeader, PlacementOk;
    SamePlacement(m, NewMetadata(o, m, s.sector, c), SectorsIn(s.device.size, s.sector), s.sector);
  }

  lemma SamePlacement(m: Metadata, n: Metadata, total: int, sector: int)
    requires Shaped(m, sector) && Shaped(n, sector) && PlacementOk(m, total, sector)
    requires EntryBytes(n) == EntryBytes(m) && EntryCount(n) == EntryCount(m)
    requires U64(n.ph, 40) == U64(m.ph, 40) && U64(n.ph, 48) == U64(m.ph, 48)
    requires U64(n.ph, 72) == U64(m.ph, 72) && U64(n.bh, 72) == U64(m.bh, 72)
    ensures PlacementOk(n, total, sector)
  {
  }

  lemma NewHeadersOk(o: Oracles, m: Metadata, sector: int, c: Change, total: int)
    requires Patchable(m, sector, c)
    requires HeaderOk(o, m.ph, 1, total - 1) && HeaderOk(o, m.bh, total - 1, 1) && CopiesAgree(m.ph, m.bh)
    requires ArraysOk(o, m, EntryBytes(m), EntryCount(m))
    requires c.layout.source <= EntryCount(m) && c.layout.root <= EntryCount(m)
    ensures var n := NewMetadata(o, m, sector, c);
            && HeaderOk(o, n.ph, 1, total - 1) && HeaderOk(o, n.bh, total - 1, 1) && CopiesAgree(n.ph, n.bh)
            && U64(n.ph, 40) == U64(m.ph, 40) && U64(n.ph, 48) == U64(m.ph, 48)
            && U64(n.ph, 72) == U64(m.ph, 72) && U64(n.bh, 72) == U64(m.bh, 72)
  {
    var entry, count := EntryBytes(m), EntryCount(m);
    var pa, ba := NewArray(m.pa, entry, c), NewArray(m.ba, entry, c);
    NewUsedAgree(m.pa, m.ba, entry, count, c);
    hide NewArray, EntrySpan, Used, Entries, ExtensionsClear;
    var pc, bc := o.Crc(Used(pa, entry, count)), o.Crc(Used(ba, entry, count));
    NewHeaderOk(o, m.ph, pc, 1, total - 1);
    NewHeaderOk(o, m.bh, bc, total - 1, 1);
    NewHeaderFields(o, m.ph, pc);
    NewHeaderFields(o, m.bh, bc);
    NewHeaderCrcs(o, m.ph, pc);
    NewHeaderCrcs(o, m.bh, bc);
    hide HeaderOk, NewHeader;
  }

  lemma NewArraysOk(o: Oracles, m: Metadata, sector: int, c: Change)
    requires Patchable(m, sector, c)
    requires ArraysOk(o, m, EntryBytes(m), EntryCount(m))
    requires c.layout.source <= EntryCount(m) && c.layout.root <= EntryCount(m)
    requires MaskFits(NewMetadata(o, m, sector, c), sector, c.layout)
    requires ArrayFits(NewMetadata(o, m, sector, c), sector)
    requires EntryBytes(NewMetadata(o, m, sector, c)) == EntryBytes(m)
    requires EntryCount(NewMetadata(o, m, sector, c)) == EntryCount(m)
    requires |Entries(NewArray(m.pa, EntryBytes(m), c), EntryBytes(m), EntryCount(m))| <= MAX_PARTITIONS
    ensures var n := NewMetadata(o, m, sector, c); ArraysOk(o, n, EntryBytes(n), EntryCount(n))
  {
    var entry, count := EntryBytes(m), EntryCount(m);
    var pa, ba := NewArray(m.pa, entry, c), NewArray(m.ba, entry, c);
    hide NewArray, EntrySpan, Used, Entries, ExtensionsClear, NewHeader;
    NewUsedAgree(m.pa, m.ba, entry, count, c);
    NewExtensionsClear(m.pa, entry, count, c);
    NewHeaderCrcs(o, m.ph, o.Crc(Used(pa, entry, count)));
    NewHeaderCrcs(o, m.bh, o.Crc(Used(ba, entry, count)));
    hide NewHeader;
  }

  /** One more row than before, still within the limits. */
  lemma NewCountOk(o: Oracles, m: Metadata, s: Snapshot, plan: Plan, guid: Guid, c: Change)
    requires Ready(o, m, s, plan, guid, c) && Patchable(m, s.sector, c)
    ensures |Entries(NewArray(m.pa, EntryBytes(m), c), EntryBytes(m), EntryCount(m))|
            <= Min(EntryCount(m), MAX_PARTITIONS)
  {
    ReadyBounds(o, m, s, plan, guid, c);
    ReadySlots(o, m, s, plan, guid, c);
    NewEntriesLength(m.pa, EntryBytes(m), EntryCount(m), c);
    EntriesIncreasing(NewArray(m.pa, EntryBytes(m), c), EntryBytes(m), EntryCount(m));
    SortLemma(RawSnapshot(o, m, s.device, s.sector).parts);
  }

  // The round trip

  /** The inventory the changed disk must show. */
  function PlannedSnapshot(o: Oracles, m: Metadata, s: Snapshot, plan: Plan, guid: Guid, c: Change): Snapshot
    requires SectorOk(s.sector) && Patchable(m, s.sector, c) && s.device.size >= 0
    requires Shaped(NewMetadata(o, m, s.sector, c), s.sector)
  {
    s.(fingerprint := o.sha(SnapshotPreimage(NewMetadata(o, m, s.sector, c), s.device, s.sector)),
       parts := ExpectedParts(s.parts, plan, guid))
  }

  lemma NewRawSnapshot(o: Oracles, m: Metadata, s: Snapshot, plan: Plan, guid: Guid, c: Change)
    requires Ready(o, m, s, plan, guid, c) && Patchable(m, s.sector, c) && s.device.size >= 0
    requires Shaped(NewMetadata(o, m, s.sector, c), s.sector) && ArrayFits(NewMetadata(o, m, s.sector, c), s.sector)
    ensures Sorted(RawSnapshot(o, NewMetadata(o, m, s.sector, c), s.device, s.sector))
            == PlannedSnapshot(o, m, s, plan, guid, c)
    ensures Admissible(RawSnapshot(o, NewMetadata(o, m, s.sector, c), s.device, s.sector))
  {
    NewCountOk(o, m, s, plan, guid, c);
    NewRowsSorted(o, m, s, plan, guid, c);
    NewRawFields(o, m, s, plan, guid, c);
    ReadyBounds(o, m, s, plan, guid, c);
    var n := NewMetadata(o, m, s.sector, c);
    StillAdmissible(s, Entries(NewArray(m.pa, EntryBytes(m), c), EntryBytes(m), EntryCount(m)),
                    o.sha(SnapshotPreimage(n, s.device, s.sector)));
    hide NewArray, EntrySpan, Entries, Decode, TableOk, NewMetadata, SnapshotPreimage, Admissible, Fitting,
         RawSnapshot, ExpectedParts, ArrayFits, Sort, Patchable;
  }

  /** New rows and a new fingerprint leave the rest of an inventory in order. */
  lemma StillAdmissible(s: Snapshot, rows: seq<Part>, fingerprint: Digest)
    requires Admissible(s) && PairwiseCompatible(rows) && |rows| <= Min(s.count, MAX_PARTITIONS)
    requires forall q :: q in rows ==> RowOk(s, q) && q.partGuid != s.diskGuid
    ensures Admissible(s.(fingerprint := fingerprint, parts := rows))
  {
  }

  /** Before sorting, the changed table differs from the old inventory only in rows and fingerprint. */
  lemma NewRawFields(o: Oracles, m: Metadata, s: Snapshot, plan: Plan, guid: Guid, c: Change)
    requires Ready(o, m, s, plan, guid, c) && Patchable(m, s.sector, c) && s.device.size >= 0
    requires Shaped(NewMetadata(o, m, s.sector, c), s.sector) && ArrayFits(NewMetadata(o, m, s.sector, c), s.sector)
    ensures RawSnapshot(o, NewMetadata(o, m, s.sector, c), s.device, s.sector)
            == s.(fingerprint := o.sha(SnapshotPreimage(NewMetadata(o, m, s.sector, c), s.device, s.sector)),
                  parts := Entries(NewArray(m.pa, EntryBytes(m), c), EntryBytes(m), EntryCount(m)))
  {
    ReadyBounds(o, m, s, plan, guid, c);
    var entry, count := EntryBytes(m), EntryCount(m);
    var n := NewMetadata(o, m, s.sector, c);
    NewShape(o, m, s.sector, c);
    NewHeaderFields(o, m.ph, o.Crc(Used(n.pa, entry, count)));
    NewHeaderFields(o, m.bh, o.Crc(Used(n.ba, entry, count)));
    assert n.ph[56..72] == m.ph[56..72];
    assert U128(n.ph, 56) == U128(m.ph, 56);
    hide NewArray, EntrySpan, Entries, NewHeader, Fitting, Admissible, TableOk, SnapshotPreimage, Le, Used, Patchable;
    assert s == RawSnapshot(o, m, s.device, s.sector).(parts := s.parts);
  }

  lemma NewRowsSorted(o: Oracles, m: Metadata, s: Snapshot, plan: Plan, guid: Guid, c: Change)
    requires Ready(o, m, s, plan, guid, c) && Patchable(m, s.sector, c)
    ensures var rows := Entries(NewArray(m.pa, EntryBytes(m), c), EntryBytes(m), EntryCount(m));
            && Sort(rows) == ExpectedParts(s.parts, plan, guid)
            && PairwiseCompatible(rows)
            && forall q :: q in rows ==> RowOk(s, q) && q.partGuid != s.diskGuid
  {
    var rows := Entries(NewArray(m.pa, EntryBytes(m), c), EntryBytes(m), EntryCount(m));
    forall q ensures q in rows <==> FinalRow(s, plan, guid, q) {
      NewMembers(o, m, s, plan, guid, c, q);
    }
    EntriesIncreasing(NewArray(m.pa, EntryBytes(m), c), EntryBytes(m), EntryCount(m));
    hide NewArray, EntrySpan, Entries, Decode, TableOk, AvailableRange, ExpectedParts, FinalRow;
    FinalRowsPairwise(s, plan, guid, rows);
    SortAscending(rows);
    SortLemma(rows);
    ExpectedRows(s, plan, guid);
    AscendingUnique(Sort(rows), ExpectedParts(s.parts, plan, guid));
  }

  /** The reader accepts the changed table exactly when the JSON limit allows, and
      then decodes it to the planned inventory. */
  lemma DecodeAfterUpdate(o: Oracles, m: Metadata, s: Snapshot, plan: Plan, guid: Guid, c: Change)
    requires Ready(o, m, s, plan, guid, c)
    ensures Patchable(m, s.sector, c) && s.device.size >= 0
    ensures Shaped(NewMetadata(o, m, s.sector, c), s.sector)
    ensures var post := PlannedSnapshot(o, m, s, plan, guid, c);
            Decode(o, NewMetadata(o, m, s.sector, c), s.device, s.sector)
            == if o.jsonSize(post) <= MAX_JSON then Some(post) else None
  {
    ReadyBounds(o, m, s, plan, guid, c);
    NewTableOk(o, m, s, plan, guid, c);
    NewRawSnapshot(o, m, s, plan, guid, c);
    hide NewMetadata, TableOk, Admissible, RawSnapshot, PlannedSnapshot, Fitting, ArrayFits, Patchable;
    assert DeviceOk(s.device) && WholeSectors(s.device.size, s.sector);
  }

  /** The slots of the plan are bound in the planned inventory as the proof requires. */
  lemma BindingAfterUpdate(s: Snapshot, plan: Plan, guid: Guid)
    requires Fitting(s, plan, guid)
    requires plan.source.typeGuid == BASIC_DATA && plan.source.attributes == 0
    ensures BindingOk(ExpectedParts(s.parts, plan, guid), Layout(plan.source.number, plan.rootNumber))
    ensures LayoutOk(Layout(plan.source.number, plan.rootNumber), s.count)
  {
    var rows := ExpectedParts(s.parts, plan, guid);
    ExpectedRows(s, plan, guid);
    assert RowOk(s, plan.source);
    assert PlannedRoot(plan, guid) in rows && plan.source.(end := plan.newEnd) in rows;
    hide ExpectedParts, AvailableRange, Ascending;
    forall q | q in rows && q.number == plan.source.number ensures q == plan.source.(end := plan.newEnd) {
    }
    forall q | q in rows && q.number == plan.rootNumber ensures q == PlannedRoot(plan, guid) {
    }
  }

  function LayoutOf(plan: Plan): Layout {
    Layout(plan.source.number, plan.rootNumber)
  }

  /** The table was read as the approved inventory with the approved proof. */
  ghost predicate Approved(o: Oracles, p: Proposal, s: Snapshot, plan: Plan, guid: Guid, m: Metadata, proof: Digest) {
    && PlanFor(o, p, s, plan) && FreshGuid(s, guid)
    && SectorOk(s.sector) && Shaped(m, s.sector)
    && Observe(o, m, s.device, s.sector, LayoutOf(plan)) == Some(Observation(s, proof))
  }

  lemma ApprovedIsReady(o: Oracles, p: Proposal, s: Snapshot, plan: Plan, guid: Guid, m: Metadata, proof: Digest)
    requires Approved(o, p, s, plan, guid, m, proof)
    ensures plan.newEnd >= 0 && plan.rootStart >= 0 && plan.rootEnd >= 0
    ensures Ready(o, m, s, plan, guid, ChangeOf(plan, guid))
    ensures plan.source.typeGuid == BASIC_DATA && plan.source.attributes == 0
    ensures Patchable(m, s.sector, ChangeOf(plan, guid)) && 0 <= s.device.size
  {
    PlanFits(o, p, s, plan, guid);
    PlanPlaced(o, p, s, plan);
    hide NtfsShrinkPlan, Normalize, Decode, AvailableRange, FreshGuid, Laid, GapHasRoom, Down, ExclusiveEnd;
    assert RowOk(s, plan.source);
    assert GeometryOk(s);
    ReadyBounds(o, m, s, plan, guid, ChangeOf(plan, guid));
  }

  /** Round trip: the patched table is observed as the planned inventory with the very
      same preservation proof; the only way to fail is the JSON size limit. */
  lemma UpdateRoundTrip(o: Oracles, p: Proposal, s: Snapshot, plan: Plan, guid: Guid, m: Metadata, proof: Digest)
    returns (c: Change, n: Metadata, post: Snapshot)
    requires Approved(o, p, s, plan, guid, m, proof)
    ensures plan.newEnd >= 0 && plan.rootStart >= 0 && plan.rootEnd >= 0 && c == ChangeOf(plan, guid)
    ensures Patchable(m, s.sector, c) && n == NewMetadata(o, m, s.sector, c) && Shaped(n, s.sector)
    ensures post == s.(fingerprint := post.fingerprint, parts := ExpectedParts(s.parts, plan, guid))
    ensures post.fingerprint == o.sha(SnapshotPreimage(n, s.device, s.sector))
    ensures Observe(o, n, s.device, s.sector, LayoutOf(plan))
            == if o.jsonSize(post) <= MAX_JSON then Some(Observation(post, proof)) else None
    ensures o.jsonSize(post) <= MAX_JSON ==>
              VerifyCreatedLayout(o, p, guid, proof, Observation(post, proof)) == Some(post)
  {
    ApprovedIsReady(o, p, s, plan, guid, m, proof);
    c := ChangeOf(plan, guid);
    n := NewMetadata(o, m, s.sector, c);
    DecodeAfterUpdate(o, m, s, plan, guid, c);
    post := PlannedSnapshot(o, m, s, plan, guid, c);
    ObserveAfterUpdate(o, m, s, plan, guid, c, proof, post);
    if o.jsonSize(post) <= MAX_JSON {
      PlannedIsVerified(o, p, s, plan, guid, proof, post);
    }
  }

  lemma PlannedIsVerified(o: Oracles, p: Proposal, s: Snapshot, plan: Plan, guid: Guid, proof: Digest, post: Snapshot)
    requires PlanFor(o, p, s, plan) && FreshGuid(s, guid) && Normal(o, post)
    requires post == s.(fingerprint := post.fingerprint, parts := ExpectedParts(s.parts, plan, guid))
    ensures VerifyCreatedLayout(o, p, guid, proof, Observation(post, proof)) == Some(post)
  {
    NormalizeIsNormal(o, post);
    hide NtfsShrinkPlan, Normalize, Normal, ExpectedParts, FreshGuid;
  }

  lemma ObserveAfterUpdate(o: Oracles, m: Metadata, s: Snapshot, plan: Plan, guid: Guid, c: Change,
                           proof: Digest, post: Snapshot)
    requires Ready(o, m, s, plan, guid, c) && Patchable(m, s.sector, c) && s.device.size >= 0
    requires plan.source.typeGuid == BASIC_DATA && plan.source.attributes == 0
    requires Observe(o, m, s.device, s.sector, LayoutOf(plan)) == Some(Observation(s, proof))
    requires Shaped(NewMetadata(o, m, s.sector, c), s.sector)
    requires post == s.(fingerprint := post.fingerprint, parts := ExpectedParts(s.parts, plan, guid))
    requires Decode(o, NewMetadata(o, m, s.sector, c), s.device, s.sector)
             == if o.jsonSize(post) <= MAX_JSON then Some(post) else None
    ensures Observe(o, NewMetadata(o, m, s.sector, c), s.device, s.sector, LayoutOf(plan))
            == if o.jsonSize(post) <= MAX_JSON then Some(Observation(post, proof)) else None
    ensures o.jsonSize(post) <= MAX_JSON ==> Normal(o, post)
  {
    NewPreimage(o, m, s.device, s.sector, c);
    BindingAfterUpdate(s, plan, guid);
    hide Decode, NewMetadata, ProofPreimage, ExpectedParts, BindingOk, Fitting, Normal, Patchable;
  }
}
