/** Geometry of an NTFS shrink: which slot and which sectors the new root gets. */
module ShrinkPlan {
  import opened Bytes
  import opened Gpt
  import opened FreeExtents

  datatype Proposal = Proposal(snapshot: Snapshot, sourceNumber: int, espNumber: int, rootBytes: int, minimum: int)

  datatype Refusal = Invalid | GapSuffices | RootBeyondSource | InsufficientRetained

  datatype Plan = Plan(
    device: Device, fingerprint: Digest, source: Part, newEnd: int, minimum: int, retained: int,
    esp: Part, rootNumber: int, rootStart: int, rootEnd: int)

  datatype Planning = Planned(plan: Plan) | Refused(why: Refusal)

  function Find(parts: seq<Part>, number: int): (r: Option<Part>)
    ensures r.Some? ==> r.value in parts && r.value.number == number
    ensures r.None? ==> forall p :: p in parts ==> p.number != number
  {
    if parts == [] then None
    else if parts[0].number == number then Some(parts[0])
    else Find(parts[1..], number)
  }

  /** The lowest slot from n on that no row uses. */
  function FreeSlot(parts: seq<Part>, n: int, count: int): (r: Option<int>)
    ensures r.Some? ==> n <= r.value <= count && Find(parts, r.value).None?
                        && forall k :: n <= k < r.value ==> Find(parts, k).Some?
    ensures r.None? ==> forall k :: n <= k <= count ==> Find(parts, k).Some?
    decreases count + 1 - n
  {
    if n > count then None
    else if Find(parts, n).None? then Some(n)
    else FreeSlot(parts, n + 1, count)
  }

  /** One past the gap that starts at `after`, or `after` itself. */
  function ExclusiveEnd(gaps: seq<Extent>, after: int): int {
    if gaps == [] then after
    else if gaps[0].start == after then gaps[0].end + 1
    else ExclusiveEnd(gaps[1..], after)
  }

  lemma {:induction false} ExclusiveEndLemma(gaps: seq<Extent>, after: int)
    requires forall g :: g in gaps ==> g.start <= g.end
    ensures ExclusiveEnd(gaps, after) == after
            || (Extent(after, ExclusiveEnd(gaps, after) - 1) in gaps && ExclusiveEnd(gaps, after) > after)
    ensures ExclusiveEnd(gaps, after) == after ==> forall g :: g in gaps ==> g.start != after
  {
    if gaps != [] && gaps[0].start != after {
      ExclusiveEndLemma(gaps[1..], after);
      assert gaps == [gaps[0]] + gaps[1..];
    } else if gaps != [] {
      assert gaps[0] in gaps;
    }
  }

  function Sectors(p: Part): int {
    p.end - p.start + 1
  }

  /** The conditions on the selection, before any placement. */
  predicate Selects(s: Snapshot, p: Proposal)
    requires SectorOk(s.sector)
  {
    && 1 <= p.sourceNumber <= 4096 && 1 <= p.espNumber <= 4096
    && p.sourceNumber != p.espNumber
    && var source, esp := Find(s.parts, p.sourceNumber), Find(s.parts, p.espNumber);
    && source.Some? && esp.Some?
    && source.value.typeGuid == BASIC_DATA && esp.value.typeGuid == EFI_SYSTEM
    && source.value.attributes == 0 && esp.value.attributes == 0
    && Aligned(source.value.start, Align(s.sector))
    && Scale(Sectors(esp.value), s.sector) >= 512 * MIB
    && 40 * GIB <= p.rootBytes <= MAX_BYTES
    && 1 <= p.minimum <= Scale(Sectors(source.value), s.sector)
    && p.rootBytes % MIB == 0
    && |s.parts| < MAX_PARTITIONS
    && FreeSlot(s.parts, 1, s.count).Some?
  }

  predicate RoomFor(s: Snapshot, rootBytes: int, g: Extent)
    requires SectorOk(s.sector)
  {
    Scale(Room(g, Align(s.sector)), s.sector) >= rootBytes
  }

  lemma GapsNonempty(s: Snapshot)
    requires Laid(s.first, s.parts, s.last)
    ensures forall g :: g in GapsOf(s) ==> g.start <= g.end
  {
    forall g | g in GapsOf(s) ensures g.start <= g.end {
      GapsAreMaximal(s.first, s.parts, s.last, g);
    }
  }

  /** The last steps: the root ends at the aligned exclusive end, the source before the root. */
  function Place(s: Snapshot, p: Proposal, source: Part, esp: Part, slot: int, end: int): Planning
    requires SectorOk(s.sector)
  {
    var exclusive := Down(end, Align(s.sector));
    var rootStart := exclusive - SectorsIn(p.rootBytes, s.sector);
    if rootStart > source.end then Refused(RootBeyondSource)
    else
      var newEnd := rootStart - 1;
      var retained := Scale(newEnd - source.start + 1, s.sector);
      if rootStart <= source.start || retained < 40 * GIB || retained < p.minimum + GIB
      then Refused(InsufficientRetained)
      else Planned(Plan(s.device, s.fingerprint, source, newEnd, p.minimum, retained, esp,
                        slot, rootStart, exclusive - 1))
  }

  /** Some listed gap could hold the root without touching the source. */
  ghost predicate GapHasRoom(s: Snapshot, rootBytes: int)
    requires SectorOk(s.sector)
  {
    exists g :: g in GapsOf(s) && RoomFor(s, rootBytes, g)
  }

  /** `ntfs_shrink_plan` on a normalised inventory. */
  ghost function PlanOn(s: Snapshot, p: Proposal): Planning
    requires SectorOk(s.sector)
  {
    if !Selects(s, p) then Refused(Invalid)
    else if GapHasRoom(s, p.rootBytes) then Refused(GapSuffices)
    else
      var source, esp := Find(s.parts, p.sourceNumber).value, Find(s.parts, p.espNumber).value;
      Place(s, p, source, esp, FreeSlot(s.parts, 1, s.count).value, ExclusiveEnd(GapsOf(s), source.end + 1))
  }

  ghost function NtfsShrinkPlan(o: Oracles, p: Proposal): Planning {
    var normal := Normalize(o, p.snapshot);
    if normal.None? then Refused(Invalid) else PlanOn(normal.value, p)
  }

  /** The program's loops over slots and gaps compute that plan. */
  method PlanShrink(o: Oracles, p: Proposal) returns (r: Planning)
    ensures r == NtfsShrinkPlan(o, p)
  {
    var normal := NormalizeSnapshot(o, p.snapshot, None);
    if normal.None? {
      return Refused(Invalid);
    }
    r := PlanLoops(normal.value, p);
  }

  method PlanLoops(s: Snapshot, p: Proposal) returns (r: Planning)
    requires SectorOk(s.sector)
    ensures r == PlanOn(s, p)
  {
    if !Selects(s, p) {
      return Refused(Invalid);
    }
    var source := Find(s.parts, p.sourceNumber).value;
    var slot := LowestSlot(s.parts, s.count);
    var gaps := FindGaps(s);
    for n := 0 to |gaps|
      invariant forall k :: 0 <= k < n ==> !RoomFor(s, p.rootBytes, gaps[k])
    {
      if RoomFor(s, p.rootBytes, gaps[n]) {
        return Refused(GapSuffices);
      }
    }
    var exclusive := FollowingGap(gaps, source.end + 1);
    return Place(s, p, source, Find(s.parts, p.espNumber).value, slot, exclusive);
  }

  /** The search for the lowest unused slot; one past the last slot if all are used. */
  method LowestSlot(parts: seq<Part>, count: int) returns (slot: int)
    ensures FreeSlot(parts, 1, count) == if slot <= count then Some(slot) else None
  {
    slot := 1;
    while slot <= count && Find(parts, slot).Some?
      invariant 1 <= slot
      invariant FreeSlot(parts, 1, count) == FreeSlot(parts, slot, count)
      decreases count - slot
    {
      slot := slot + 1;
    }
  }

  /** The search for the gap directly behind the source. */
  method FollowingGap(gaps: seq<Extent>, after: int) returns (exclusive: int)
    ensures exclusive == ExclusiveEnd(gaps, after)
  {
    exclusive := after;
    for n := 0 to |gaps|
      invariant exclusive == after
      invariant ExclusiveEnd(gaps, after) == ExclusiveEnd(gaps[n..], after)
    {
      assert gaps[n..][1..] == gaps[n + 1..];
      if gaps[n].start == exclusive {
        exclusive := gaps[n].end + 1;
        break;
      }
    }
  }

  // What the plan means

  /** The root size in sectors is a whole number of alignment units. */
  lemma RootSectors(rootBytes: int, sector: int)
    requires SectorOk(sector) && rootBytes % MIB == 0 && rootBytes > 0
    ensures Scale(SectorsIn(rootBytes, sector), sector) == rootBytes
    ensures Aligned(SectorsIn(rootBytes, sector), Align(sector)) && SectorsIn(rootBytes, sector) > 0
  {
    var units := rootBytes / MIB;
    assert rootBytes == units * MIB && units > 0;
    if sector == 512 {
      assert rootBytes / 512 == units * 2048;
    } else {
      assert rootBytes / 4096 == units * 256;
    }
  }

  /** Sector x belongs to the source partition or to nothing. */
  ghost predicate Available(s: Snapshot, source: Part, x: int) {
    Within(source, x) || Free(s.first, s.last, s.parts, x)
  }

  ghost predicate AvailableRange(s: Snapshot, source: Part, start: int, end: int) {
    forall x :: start <= x <= end ==> Available(s, source, x)
  }

  /** Some aligned run of the root size is entirely free. */
  ghost predicate FreeRunExists(s: Snapshot, rootBytes: int)
    requires SectorOk(s.sector)
  {
    exists r :: Aligned(r, Align(s.sector)) && FreeRange(s, r, r + SectorsIn(rootBytes, s.sector) - 1)
  }

  lemma RoomMeansFreeRun(s: Snapshot, rootBytes: int)
    requires SectorOk(s.sector) && Laid(s.first, s.parts, s.last)
    requires rootBytes % MIB == 0 && rootBytes > 0
    ensures GapHasRoom(s, rootBytes) <==> FreeRunExists(s, rootBytes)
  {
    var a, n := Align(s.sector), SectorsIn(rootBytes, s.sector);
    RootSectors(rootBytes, s.sector);
    AlignedRoom(s, a, n);
    forall g ensures RoomFor(s, rootBytes, g) <==> Room(g, a) >= n {
    }
  }

  /** Refused as unnecessary exactly when an aligned run of the root size is free. */
  lemma UnnecessaryExactly(o: Oracles, p: Proposal, s: Snapshot)
    requires Normalize(o, p.snapshot) == Some(s) && SectorOk(s.sector) && Selects(s, p)
    ensures NtfsShrinkPlan(o, p) == Refused(GapSuffices) <==> FreeRunExists(s, p.rootBytes)
  {
    RefusedForRoom(s, p);
    NormalizeIsLaid(o, p.snapshot, s);
    hide Normalize, GapHasRoom, FreeRunExists, Laid, PlanOn;
    RoomMeansFreeRun(s, p.rootBytes);
  }

  lemma RefusedForRoom(s: Snapshot, p: Proposal)
    requires SectorOk(s.sector) && Selects(s, p)
    ensures PlanOn(s, p) == Refused(GapSuffices) <==> GapHasRoom(s, p.rootBytes)
    ensures p.rootBytes % MIB == 0 && p.rootBytes > 0
  {
  }

  /** The second "unnecessary" check never fires. */
  lemma SecondCheckIsDead(o: Oracles, p: Proposal)
    ensures NtfsShrinkPlan(o, p) != Refused(RootBeyondSource)
  {
    if Normalize(o, p.snapshot).Some? {
      NormalizeIsLaid(o, p.snapshot, Normalize(o, p.snapshot).value);
      PlacementStaysInSource(Normalize(o, p.snapshot).value, p);
    }
  }

  lemma PlacementStaysInSource(s: Snapshot, p: Proposal)
    requires SectorOk(s.sector) && Laid(s.first, s.parts, s.last)
    ensures PlanOn(s, p) != Refused(RootBeyondSource)
  {
    if Selects(s, p) && !GapHasRoom(s, p.rootBytes) {
      RootBeforeSourceEnd(s, Find(s.parts, p.sourceNumber).value.end, p.rootBytes);
    }
  }

  /** Without a gap that has room, the root start falls inside the source. */
  lemma RootBeforeSourceEnd(s: Snapshot, sourceEnd: int, rootBytes: int)
    requires SectorOk(s.sector) && Laid(s.first, s.parts, s.last) && !GapHasRoom(s, rootBytes)
    requires rootBytes % MIB == 0 && rootBytes > 0
    ensures Down(ExclusiveEnd(GapsOf(s), sourceEnd + 1), Align(s.sector)) - SectorsIn(rootBytes, s.sector)
            <= sourceEnd
  {
    var a, n := Align(s.sector), SectorsIn(rootBytes, s.sector);
    RootSectors(rootBytes, s.sector);
    GapsNonempty(s);
    ExclusiveEndLemma(GapsOf(s), sourceEnd + 1);
    var end := ExclusiveEnd(GapsOf(s), sourceEnd + 1);
    DownIsGreatest(end, a, 0);
    if end != sourceEnd + 1 {
      var g := Extent(sourceEnd + 1, end - 1);
      assert !RoomFor(s, rootBytes, g);
      assert Room(g, a) < n;
      UpIsLeast(g.start, a, 0);
      MultiplesAdd(Down(end, a), n, a);
      MultiplesApart(Down(end, a) - n, Up(g.start, a), a);
    }
  }

  /** The inventory behind an accepted plan. */
  ghost predicate PlanFor(o: Oracles, p: Proposal, s: Snapshot, plan: Plan) {
    && Normalize(o, p.snapshot) == Some(s)
    && NtfsShrinkPlan(o, p) == Planned(plan)
  }

  /** The equations of an accepted plan, free of the functions that made it. */
  ghost predicate Placed(s: Snapshot, p: Proposal, plan: Plan)
    requires SectorOk(s.sector)
  {
    var a, n := Align(s.sector), SectorsIn(p.rootBytes, s.sector);
    && Laid(s.first, s.parts, s.last)
    && plan.device == s.device && plan.fingerprint == s.fingerprint
    && plan.source in s.parts && plan.source.number == p.sourceNumber
    && plan.esp in s.parts && plan.esp.number == p.espNumber != p.sourceNumber
    && plan.source.typeGuid == BASIC_DATA && plan.source.attributes == 0
    && Aligned(plan.source.start, a)
    && plan.esp.typeGuid == EFI_SYSTEM && plan.esp.attributes == 0
    && Scale(Sectors(plan.esp), s.sector) >= 512 * MIB
    && p.rootBytes % MIB == 0 && 40 * GIB <= p.rootBytes <= MAX_BYTES
    && 1 <= p.minimum <= Scale(Sectors(plan.source), s.sector)
    && !GapHasRoom(s, p.rootBytes)
    && 1 <= plan.rootNumber <= s.count && (forall q :: q in s.parts ==> q.number != plan.rootNumber)
    && FreeSlot(s.parts, 1, s.count) == Some(plan.rootNumber)
    && |s.parts| < MAX_PARTITIONS
    && plan.rootEnd + 1 == Down(ExclusiveEnd(GapsOf(s), plan.source.end + 1), a)
    && plan.rootStart == plan.rootEnd + 1 - n
    && plan.newEnd == plan.rootStart - 1
    && plan.source.start < plan.rootStart
    && plan.minimum == p.minimum
    && plan.retained == Scale(plan.newEnd - plan.source.start + 1, s.sector)
    && plan.retained >= 40 * GIB && plan.retained >= p.minimum + GIB
  }

  lemma PlanOnPlaced(s: Snapshot, p: Proposal, plan: Plan)
    requires SectorOk(s.sector) && Laid(s.first, s.parts, s.last)
    requires PlanOn(s, p) == Planned(plan)
    ensures Placed(s, p, plan)
  {
  }

  lemma PlanPlaced(o: Oracles, p: Proposal, s: Snapshot, plan: Plan)
    requires PlanFor(o, p, s, plan)
    ensures SectorOk(s.sector) && Placed(s, p, plan)
  {
    NormalizeIsLaid(o, p.snapshot, s);
    PlanOnPlaced(s, p, plan);
  }

  lemma NormalizeIsLaid(o: Oracles, raw: Snapshot, s: Snapshot)
    requires Normalize(o, raw) == Some(s)
    ensures Laid(s.first, s.parts, s.last)
  {
    NormalizeIsNormal(o, raw);
    NormalIsLaid(o, s);
  }

  /** Every accepted plan: an unused slot, an aligned root extent made of source and
      free sectors only, the source cut immediately before it. */
  lemma PlanIsSafe(o: Oracles, p: Proposal, s: Snapshot, plan: Plan)
    requires PlanFor(o, p, s, plan)
    ensures SectorOk(s.sector)
    ensures plan.source in s.parts && plan.source.number == p.sourceNumber
    ensures plan.esp in s.parts && plan.esp.number == p.espNumber && plan.esp != plan.source
    ensures 1 <= plan.rootNumber <= s.count && forall q :: q in s.parts ==> q.number != plan.rootNumber
    ensures plan.source.start < plan.rootStart == plan.newEnd + 1 <= plan.source.end
    ensures plan.rootStart <= plan.rootEnd <= s.last
    ensures Aligned(plan.rootStart, Align(s.sector)) && Aligned(plan.rootEnd + 1, Align(s.sector))
    ensures plan.rootEnd - plan.rootStart + 1 == SectorsIn(p.rootBytes, s.sector)
    ensures AvailableRange(s, plan.source, plan.rootStart, plan.rootEnd)
  {
    PlanPlaced(o, p, s, plan);
    PlacedIsSafe(s, p, plan);
  }

  lemma PlacedIsSafe(s: Snapshot, p: Proposal, plan: Plan)
    requires SectorOk(s.sector) && Placed(s, p, plan)
    ensures plan.rootStart <= plan.source.end
    ensures plan.rootStart <= plan.rootEnd <= s.last
    ensures Aligned(plan.rootStart, Align(s.sector)) && Aligned(plan.rootEnd + 1, Align(s.sector))
    ensures plan.rootEnd - plan.rootStart + 1 == SectorsIn(p.rootBytes, s.sector)
    ensures AvailableRange(s, plan.source, plan.rootStart, plan.rootEnd)
  {
    SafeExtent(s, plan.source, plan.rootStart, plan.rootEnd, p.rootBytes);
  }

  lemma SafeExtent(s: Snapshot, source: Part, rootStart: int, rootEnd: int, rootBytes: int)
    requires SectorOk(s.sector) && Laid(s.first, s.parts, s.last) && source in s.parts
    requires rootBytes % MIB == 0 && rootBytes > 0 && !GapHasRoom(s, rootBytes)
    requires rootEnd + 1 == Down(ExclusiveEnd(GapsOf(s), source.end + 1), Align(s.sector))
    requires source.start < rootStart == rootEnd + 1 - SectorsIn(rootBytes, s.sector)
    ensures rootStart <= source.end
    ensures rootStart <= rootEnd <= s.last
    ensures Aligned(rootStart, Align(s.sector)) && Aligned(rootEnd + 1, Align(s.sector))
    ensures AvailableRange(s, source, rootStart, rootEnd)
  {
    var end := ExclusiveEnd(GapsOf(s), source.end + 1);
    RootBeforeSourceEnd(s, source.end, rootBytes);
    FreeBehindSource(s, source);
    RootExtent(end, rootStart, rootEnd, rootBytes, s.sector);
    RootIsAvailable(s, source, rootStart, rootEnd);
  }

  lemma RootExtent(end: int, rootStart: int, rootEnd: int, rootBytes: int, sector: int)
    requires SectorOk(sector) && rootBytes % MIB == 0 && rootBytes > 0
    requires rootEnd + 1 == Down(end, Align(sector))
    requires rootStart == rootEnd + 1 - SectorsIn(rootBytes, sector)
    ensures rootStart <= rootEnd < end
    ensures Aligned(rootStart, Align(sector)) && Aligned(rootEnd + 1, Align(sector))
  {
    RootSectors(rootBytes, sector);
    DownIsGreatest(end, Align(sector), 0);
    MultiplesAdd(rootEnd + 1, SectorsIn(rootBytes, sector), Align(sector));
  }

  lemma RootIsAvailable(s: Snapshot, source: Part, rootStart: int, rootEnd: int)
    requires source.start < rootStart && rootEnd < ExclusiveEnd(GapsOf(s), source.end + 1)
    requires FreeRange(s, source.end + 1, ExclusiveEnd(GapsOf(s), source.end + 1) - 1)
    ensures AvailableRange(s, source, rootStart, rootEnd)
  {
  }

  /** Everything from the source up to the exclusive end is free and usable. */
  lemma FreeBehindSource(s: Snapshot, source: Part)
    requires Laid(s.first, s.parts, s.last) && source in s.parts
    ensures source.end < ExclusiveEnd(GapsOf(s), source.end + 1) <= s.last + 1
    ensures FreeRange(s, source.end + 1, ExclusiveEnd(GapsOf(s), source.end + 1) - 1)
  {
    GapsNonempty(s);
    ExclusiveEndLemma(GapsOf(s), source.end + 1);
    var end := ExclusiveEnd(GapsOf(s), source.end + 1);
    if end != source.end + 1 {
      var g := Extent(source.end + 1, end - 1);
      GapsAreMaximal(s.first, s.parts, s.last, g);
      assert g.start <= g.end;
      assert Free(s.first, s.last, s.parts, end - 1);
    }
  }

  /** The root start is the largest: no aligned run of that many sectors made of
      source and free sectors begins later, so no plan could keep more of the source. */
  lemma RootStartIsLargest(o: Oracles, p: Proposal, s: Snapshot, plan: Plan, r: int)
    requires PlanFor(o, p, s, plan) && SectorOk(s.sector)
    requires Aligned(r, Align(s.sector))
    requires AvailableRange(s, plan.source, r, r + SectorsIn(p.rootBytes, s.sector) - 1)
    ensures r <= plan.rootStart
  {
    PlanPlaced(o, p, s, plan);
    PlacedIsLargest(s, p, plan, r);
  }

  lemma PlacedIsLargest(s: Snapshot, p: Proposal, plan: Plan, r: int)
    requires SectorOk(s.sector) && Placed(s, p, plan)
    requires Aligned(r, Align(s.sector))
    requires AvailableRange(s, plan.source, r, r + SectorsIn(p.rootBytes, s.sector) - 1)
    ensures r <= plan.rootStart
  {
    RunEndsByExclusiveEnd(s, plan.source, r, p.rootBytes);
    LatestStart(ExclusiveEnd(GapsOf(s), plan.source.end + 1), r, p.rootBytes, s.sector);
  }

  lemma LatestStart(end: int, r: int, rootBytes: int, sector: int)
    requires SectorOk(sector) && rootBytes % MIB == 0 && rootBytes > 0
    requires Aligned(r, Align(sector)) && r + SectorsIn(rootBytes, sector) <= end
    ensures r <= Down(end, Align(sector)) - SectorsIn(rootBytes, sector)
  {
    var n := SectorsIn(rootBytes, sector);
    RootSectors(rootBytes, sector);
    MultiplesAdd(r, n, Align(sector));
    DownIsGreatest(end, Align(sector), r + n);
  }

  /** An aligned available run of the root size touches the source, so it ends by the exclusive end. */
  lemma RunEndsByExclusiveEnd(s: Snapshot, source: Part, r: int, rootBytes: int)
    requires SectorOk(s.sector) && Laid(s.first, s.parts, s.last) && source in s.parts
    requires rootBytes % MIB == 0 && rootBytes > 0 && !GapHasRoom(s, rootBytes)
    requires Aligned(r, Align(s.sector))
    requires AvailableRange(s, source, r, r + SectorsIn(rootBytes, s.sector) - 1)
    ensures r + SectorsIn(rootBytes, s.sector) <= ExclusiveEnd(GapsOf(s), source.end + 1)
  {
    var n := SectorsIn(rootBytes, s.sector);
    RoomMeansFreeRun(s, rootBytes);
    assert !FreeRange(s, r, r + n - 1);
    var y :| r <= y <= r + n - 1 && !Free(s.first, s.last, s.parts, y);
    assert Available(s, source, y);
    var end := ExclusiveEnd(GapsOf(s), source.end + 1);
    EndIsNotAvailable(s, source);
    assert r <= end <= r + n - 1 ==> Available(s, source, end);
  }

  /** The sector at the exclusive end is neither source nor free. */
  lemma EndIsNotAvailable(s: Snapshot, source: Part)
    requires Laid(s.first, s.parts, s.last) && source in s.parts
    ensures !Available(s, source, ExclusiveEnd(GapsOf(s), source.end + 1))
    ensures ExclusiveEnd(GapsOf(s), source.end + 1) > source.end
  {
    GapsNonempty(s);
    ExclusiveEndLemma(GapsOf(s), source.end + 1);
    var end := ExclusiveEnd(GapsOf(s), source.end + 1);
    if end == source.end + 1 {
      NoGapNoFree(s, source);
    } else {
      var g := Extent(source.end + 1, end - 1);
      GapsAreMaximal(s.first, s.parts, s.last, g);
      assert g.start <= g.end;
      assert !Free(s.first, s.last, s.parts, g.end + 1);
    }
  }

  /** A free sector right behind a partition starts a listed gap. */
  lemma NoGapNoFree(s: Snapshot, source: Part)
    requires Laid(s.first, s.parts, s.last) && source in s.parts
    ensures Free(s.first, s.last, s.parts, source.end + 1) ==>
              exists g :: g in GapsOf(s) && g.start == source.end + 1
  {
    if Free(s.first, s.last, s.parts, source.end + 1) {
      var g := FreeSectorHasGap(s.first, s.parts, s.last, source.end + 1);
      GapsAreMaximal(s.first, s.parts, s.last, g);
      assert Within(source, source.end);
      assert !Free(s.first, s.last, s.parts, source.end);
    }
  }

  /** Retained capacity meets every later guard: MiB multiple, strictly less than the
      source, 40 GiB floor and 1 GiB above the inspected minimum. */
  lemma RetainedMeetsGuards(o: Oracles, p: Proposal, s: Snapshot, plan: Plan)
    requires PlanFor(o, p, s, plan)
    ensures SectorOk(s.sector)
    ensures plan.retained % MIB == 0
    ensures 40 * GIB <= plan.retained < Scale(Sectors(plan.source), s.sector)
    ensures plan.retained >= p.minimum + GIB
  {
    PlanPlaced(o, p, s, plan);
    PlacedRetains(s, p, plan);
  }

  lemma PlacedRetains(s: Snapshot, p: Proposal, plan: Plan)
    requires SectorOk(s.sector) && Placed(s, p, plan)
    ensures plan.retained % MIB == 0
    ensures 40 * GIB <= plan.retained < Scale(Sectors(plan.source), s.sector)
    ensures plan.retained >= p.minimum + GIB
  {
    PlacedIsSafe(s, p, plan);
    RetainedIsWhole(plan.rootStart, plan.source.start, s.sector);
  }

  lemma RetainedIsWhole(rootStart: int, sourceStart: int, sector: int)
    requires SectorOk(sector)
    requires Aligned(rootStart, Align(sector)) && Aligned(sourceStart, Align(sector))
    ensures Scale(rootStart - sourceStart, sector) % MIB == 0
  {
  }

  // When a plan exists

  ghost predicate Taken(parts: seq<Part>, number: int) {
    exists q :: q in parts && q.number == number
  }

  /** Every slot below is taken, and this one is not. */
  ghost predicate LowestUnused(parts: seq<Part>, number: int) {
    1 <= number && !Taken(parts, number) && forall k :: 1 <= k < number ==> Taken(parts, k)
  }

  lemma FreeSlotIsLowest(parts: seq<Part>, count: int)
    ensures var slot := FreeSlot(parts, 1, count);
            if slot.Some? then LowestUnused(parts, slot.value) && slot.value <= count
            else forall k :: 1 <= k <= count ==> Taken(parts, k)
  {
    forall k
      ensures Find(parts, k).Some? <==> Taken(parts, k)
    {
    }
  }

  /** Rows that may be shrunk and reused. */
  ghost predicate SourceAndEsp(s: Snapshot, p: Proposal, source: Part, esp: Part)
    requires SectorOk(s.sector)
  {
    && source in s.parts && esp in s.parts && source != esp
    && source.number == p.sourceNumber && esp.number == p.espNumber
    && source.typeGuid == BASIC_DATA && source.attributes == 0 && Aligned(source.start, Align(s.sector))
    && esp.typeGuid == EFI_SYSTEM && esp.attributes == 0
    && Scale(esp.end - esp.start + 1, s.sector) >= 512 * MIB
    && 1 <= p.minimum <= Scale(source.end - source.start + 1, s.sector)
  }

  /** A root at r leaves the source enough. */
  ghost predicate LeavesEnough(s: Snapshot, p: Proposal, source: Part, r: int)
    requires SectorOk(s.sector)
  {
    && Aligned(r, Align(s.sector)) && source.start < r
    && AvailableRange(s, source, r, r + SectorsIn(p.rootBytes, s.sector) - 1)
    && Scale(r - source.start, s.sector) >= 40 * GIB && Scale(r - source.start, s.sector) >= p.minimum + GIB
  }

  /** The shrink is possible and needed: the rows are right, the root has an admissible size, a slot
      and a row are left, no free run could take the root, and some aligned run of source and free
      sectors could, leaving the source enough. */
  ghost predicate Shrinkable(s: Snapshot, p: Proposal, source: Part, esp: Part, slot: int, r: int)
    requires SectorOk(s.sector)
  {
    && SourceAndEsp(s, p, source, esp)
    && 40 * GIB <= p.rootBytes <= MAX_BYTES && p.rootBytes % MIB == 0
    && |s.parts| < MAX_PARTITIONS && 1 <= slot <= s.count && !Taken(s.parts, slot)
    && !FreeRunExists(s, p.rootBytes)
    && LeavesEnough(s, p, source, r)
  }

  /** A plan is made exactly then, and for these rows. */
  lemma PlanExactly(o: Oracles, p: Proposal, s: Snapshot)
    requires Normalize(o, p.snapshot) == Some(s)
    ensures NtfsShrinkPlan(o, p).Planned? <==> exists source, esp, slot, r :: Shrinkable(s, p, source, esp, slot, r)
    ensures NtfsShrinkPlan(o, p).Planned? ==>
              var plan := NtfsShrinkPlan(o, p).plan;
              && Shrinkable(s, p, plan.source, plan.esp, plan.rootNumber, plan.rootStart)
              && plan.rootEnd + 1 == plan.rootStart + SectorsIn(p.rootBytes, s.sector)
              && plan.newEnd + 1 == plan.rootStart
              && plan.retained == Scale(plan.rootStart - plan.source.start, s.sector)
              && LowestUnused(s.parts, plan.rootNumber)
  {
    NormalizeIsNormal(o, p.snapshot);
    NormalIsLaid(o, s);
    NormalRows(o, s);
    assert NtfsShrinkPlan(o, p) == PlanOn(s, p);
    hide Normalize, Normal, NtfsShrinkPlan, PlanOn, Laid, Numbered, Shrinkable, LowestUnused;
    if PlanOn(s, p).Planned? {
      PlannedIsShrinkable(s, p);
    }
    if source, esp, slot, r :| Shrinkable(s, p, source, esp, slot, r) {
      ShrinkableIsPlanned(s, p, source, esp, slot, r);
    }
  }

  /** Rows are told apart by their numbers, which are slots of the table. */
  ghost predicate Numbered(s: Snapshot) {
    && s.count <= 4096
    && (forall q :: q in s.parts ==> 1 <= q.number <= s.count && q.start <= q.end)
    && (forall a, b :: a in s.parts && b in s.parts && a.number == b.number ==> a == b)
  }

  lemma NormalRows(o: Oracles, s: Snapshot)
    requires Normal(o, s)
    ensures Numbered(s)
  {
    forall a, b | a in s.parts && b in s.parts && a.number == b.number
      ensures a == b
    {
      var i :| 0 <= i < |s.parts| && s.parts[i] == a;
      var j :| 0 <= j < |s.parts| && s.parts[j] == b;
      if a != b {
        RowsApart(s.parts, i, j);
      }
    }
  }

  lemma RowsApart(parts: seq<Part>, i: int, j: int)
    requires PairwiseCompatible(parts) && 0 <= i < |parts| && 0 <= j < |parts| && i != j
    ensures parts[i].number != parts[j].number
  {
  }

  lemma PlannedIsShrinkable(s: Snapshot, p: Proposal)
    requires SectorOk(s.sector) && Laid(s.first, s.parts, s.last) && PlanOn(s, p).Planned?
    ensures var plan := PlanOn(s, p).plan;
            && Shrinkable(s, p, plan.source, plan.esp, plan.rootNumber, plan.rootStart)
            && plan.rootEnd + 1 == plan.rootStart + SectorsIn(p.rootBytes, s.sector)
            && plan.newEnd + 1 == plan.rootStart
            && plan.retained == Scale(plan.rootStart - plan.source.start, s.sector)
            && LowestUnused(s.parts, plan.rootNumber)
  {
    PlanOnPlaced(s, p, PlanOn(s, p).plan);
    PlacedIsShrinkable(s, p, PlanOn(s, p).plan);
    hide PlanOn, Shrinkable, LowestUnused, SectorsIn, Scale, Laid;
  }

  lemma PlacedIsShrinkable(s: Snapshot, p: Proposal, plan: Plan)
    requires SectorOk(s.sector) && Placed(s, p, plan)
    ensures Shrinkable(s, p, plan.source, plan.esp, plan.rootNumber, plan.rootStart)
    ensures LowestUnused(s.parts, plan.rootNumber)
  {
    hide Laid, AvailableRange, FreeRunExists, GapHasRoom, Scale, SectorsIn, Aligned, Align, FreeSlot, Down,
         ExclusiveEnd;
    PlacedIsSafe(s, p, plan);
    RoomMeansFreeRun(s, p.rootBytes);
    FreeSlotIsLowest(s.parts, s.count);
  }

  lemma ShrinkableIsPlanned(s: Snapshot, p: Proposal, source: Part, esp: Part, slot: int, r: int)
    requires SectorOk(s.sector) && Laid(s.first, s.parts, s.last) && Numbered(s)
    requires Shrinkable(s, p, source, esp, slot, r)
    ensures PlanOn(s, p).Planned?
  {
    hide Selects, Place, Laid, Numbered, GapHasRoom, FreeSlot, ExclusiveEnd, AvailableRange, FreeRunExists, Down,
         SectorsIn, Align, Scale, SourceAndEsp;
    ShrinkableSelects(s, p, source, esp, slot, r);
    assert source in s.parts by {
      SourceIsRow(s, p, source, esp);
    }
    RoomBehind(s, p, source, r);
    PlaceSucceeds(s, p, source, esp, FreeSlot(s.parts, 1, s.count).value, ExclusiveEnd(GapsOf(s), source.end + 1), r);
  }

  lemma SourceIsRow(s: Snapshot, p: Proposal, source: Part, esp: Part)
    requires SectorOk(s.sector) && SourceAndEsp(s, p, source, esp)
    ensures source in s.parts
  {
  }

  lemma PlaceSucceeds(s: Snapshot, p: Proposal, source: Part, esp: Part, slot: int, end: int, r: int)
    requires SectorOk(s.sector) && source.start < r
    requires r <= Down(end, Align(s.sector)) - SectorsIn(p.rootBytes, s.sector) <= source.end
    requires Scale(r - source.start, s.sector) >= 40 * GIB && Scale(r - source.start, s.sector) >= p.minimum + GIB
    ensures Place(s, p, source, esp, slot, end).Planned?
  {
    hide Down, SectorsIn, Align;
  }

  lemma RoomBehind(s: Snapshot, p: Proposal, source: Part, r: int)
    requires SectorOk(s.sector) && Laid(s.first, s.parts, s.last) && source in s.parts
    requires p.rootBytes % MIB == 0 && p.rootBytes > 0
    requires !FreeRunExists(s, p.rootBytes) && LeavesEnough(s, p, source, r)
    ensures !GapHasRoom(s, p.rootBytes)
    ensures r <= Down(ExclusiveEnd(GapsOf(s), source.end + 1), Align(s.sector)) - SectorsIn(p.rootBytes, s.sector)
              <= source.end
  {
    RoomMeansFreeRun(s, p.rootBytes);
    hide Laid, AvailableRange, FreeRunExists, GapHasRoom, SectorsIn, ExclusiveEnd, Down, Aligned;
    RunEndsByExclusiveEnd(s, source, r, p.rootBytes);
    LatestStart(ExclusiveEnd(GapsOf(s), source.end + 1), r, p.rootBytes, s.sector);
    RootBeforeSourceEnd(s, source.end, p.rootBytes);
  }

  lemma ShrinkableSelects(s: Snapshot, p: Proposal, source: Part, esp: Part, slot: int, r: int)
    requires SectorOk(s.sector) && Numbered(s) && Shrinkable(s, p, source, esp, slot, r)
    ensures Selects(s, p) && FreeSlot(s.parts, 1, s.count).Some?
    ensures Find(s.parts, p.sourceNumber) == Some(source) && Find(s.parts, p.espNumber) == Some(esp)
  {
    FreeSlotIsLowest(s.parts, s.count);
    hide FreeRunExists, LeavesEnough, Aligned, FreeSlot, Scale;
  }
}
