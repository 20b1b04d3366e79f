/** The two plans that only create partitions: into one selected gap, or role by role. */
module CreatePlans {
  import opened Bytes
  import opened Gpt
  import opened FreeExtents
  import opened ShrinkPlan

  const ESP_FLOOR := 512 * MIB
  const ROOT_FLOOR := 40 * GIB

  /** A role's partition: an existing row, or a new one to be created. */
  datatype Binding = Binding(created: bool, number: int, start: int, end: int, typeGuid: Guid)

  datatype Roles = Roles(esp: Binding, root: Binding)

  function NewRow(b: Binding, guid: Guid): Part {
    Part(b.number, b.start, b.end, b.typeGuid, guid, 0)
  }

  predicate Overlap(a: Binding, b: Binding) {
    a.start <= b.end && b.start <= a.end
  }

  // ---- the compact plan ----

  function CompactOn(s: Snapshot, selected: Extent): Option<Roles>
    requires SectorOk(s.sector)
  {
    var first := FreeSlot(s.parts, 1, s.count);
    var second := if first.Some? then FreeSlot(s.parts, first.value + 1, s.count) else None;
    if !(0 <= selected.start <= selected.end <= MAX_BYTES) || selected !in GapsOf(s) || second.None? then None
    else
      var espStart := Up(selected.start, Align(s.sector));
      var espEnd := espStart + SectorsIn(ESP_FLOOR, s.sector) - 1;
      var rootStart := espEnd + 1;
      var rootEnd := Down(selected.end + 1, Align(s.sector)) - 1;
      if rootStart > rootEnd || Scale(rootEnd - rootStart + 1, s.sector) < ROOT_FLOOR then None
      else Some(Roles(Binding(true, first.value, espStart, espEnd, EFI_SYSTEM),
                      Binding(true, second.value, rootStart, rootEnd, LINUX_DATA)))
  }

  /** `compact_plan`, with its loops over gaps and slots. */
  method PlanCompact(o: Oracles, snapshot: Snapshot, selected: Extent) returns (r: Option<Roles>)
    ensures r == if Normalize(o, snapshot).None? then None else CompactOn(Normalize(o, snapshot).value, selected)
  {
    hide Normalize, FreeSlot, GapsFrom, Up, Down, Scale, SectorsIn;
    var normal := NormalizeSnapshot(o, snapshot, None);
    if normal.None? {
      return None;
    }
    var s := normal.value;
    if !(0 <= selected.start <= selected.end <= MAX_BYTES) {
      return None;
    }
    var gaps := FindGaps(s);
    if selected !in gaps {
      return None;
    }
    var slots := TwoSlots(s);
    if |slots| != 2 {
      return None;
    }
    var align := Align(s.sector);
    var espStart := Up(selected.start, align);
    var espEnd := espStart + SectorsIn(ESP_FLOOR, s.sector) - 1;
    var rootStart := espEnd + 1;
    var rootEnd := Down(selected.end + 1, align) - 1;
    if rootStart > rootEnd || Scale(rootEnd - rootStart + 1, s.sector) < ROOT_FLOOR {
      return None;
    }
    r := Some(Roles(Binding(true, slots[0], espStart, espEnd, EFI_SYSTEM),
                    Binding(true, slots[1], rootStart, rootEnd, LINUX_DATA)));
  }

  /** The first two numbers that no row uses, or fewer. */
  method TwoSlots(s: Snapshot) returns (slots: seq<int>)
    ensures var first := FreeSlot(s.parts, 1, s.count);
            var second := if first.Some? then FreeSlot(s.parts, first.value + 1, s.count) else None;
            && (second.Some? ==> slots == [first.value, second.value])
            && (second.None? ==> |slots| < 2)
  {
    slots := [];
    var n := 1;
    while n <= s.count && |slots| < 2
      invariant 1 <= n
      invariant slots == [] ==> FreeSlot(s.parts, 1, s.count) == FreeSlot(s.parts, n, s.count)
      invariant |slots| <= 2
      invariant |slots| >= 1 ==> FreeSlot(s.parts, 1, s.count) == Some(slots[0])
      invariant |slots| == 1 ==> FreeSlot(s.parts, slots[0] + 1, s.count) == FreeSlot(s.parts, n, s.count)
      invariant |slots| == 2 ==> FreeSlot(s.parts, slots[0] + 1, s.count) == Some(slots[1])
    {
      if Find(s.parts, n).None? {
        slots := slots + [n];
      }
      n := n + 1;
    }
  }

  // ---- the manual plan ----

  datatype Choice = Existing(number: int, format: bool) | Create(start: int, end: int)

  predicate ChoiceOk(c: Choice) {
    match c
    case Existing(number, _) => 1 <= number <= 4096
    case Create(start, end) => 0 <= start <= end <= MAX_BYTES
  }

  ghost predicate InsideGap(s: Snapshot, start: int, end: int) {
    exists g :: g in GapsOf(s) && g.start <= start <= end <= g.end
  }

  predicate CreateOk(s: Snapshot, start: int, end: int)
    requires SectorOk(s.sector)
  {
    && s.first <= start <= end <= s.last
    && Aligned(start, Align(s.sector)) && Aligned(end + 1, Align(s.sector))
  }

  /** One role; `lowest` is the first slot that may be given out. */
  ghost function Bind(s: Snapshot, c: Choice, typeGuid: Guid, floor: int, lowest: int): Option<Binding>
    requires SectorOk(s.sector)
  {
    match c
    case Existing(number, _) =>
      var row := Find(s.parts, number);
      if row.None? || row.value.typeGuid != typeGuid || row.value.attributes != 0
         || Scale(Sectors(row.value), s.sector) < floor then None
      else Some(Binding(false, number, row.value.start, row.value.end, typeGuid))
    case Create(start, end) =>
      var slot := FreeSlot(s.parts, lowest, s.count);
      if !CreateOk(s, start, end) || !InsideGap(s, start, end) || slot.None?
         || Scale(end - start + 1, s.sector) < floor then None
      else Some(Binding(true, slot.value, start, end, typeGuid))
  }

  function Additions(esp: Choice, root: Choice): int {
    (if esp.Create? then 1 else 0) + (if root.Create? then 1 else 0)
  }

  function NextSlot(b: Binding): int {
    if b.created then b.number + 1 else 1
  }

  ghost function ManualOn(s: Snapshot, esp: Choice, root: Choice): Option<Roles>
    requires SectorOk(s.sector)
  {
    if !ChoiceOk(esp) || !ChoiceOk(root) || (root.Existing? && !root.format)
       || |s.parts| + Additions(esp, root) > MAX_PARTITIONS then None
    else
      var a := Bind(s, esp, EFI_SYSTEM, ESP_FLOOR, 1);
      if a.None? then None
      else
        var b := Bind(s, root, LINUX_DATA, ROOT_FLOOR, NextSlot(a.value));
        if b.None? || a.value.number == b.value.number || Overlap(a.value, b.value) then None
        else Some(Roles(a.value, b.value))
  }

  /** The body of the loop over the two roles. */
  method BindRole(s: Snapshot, gaps: seq<Extent>, c: Choice, typeGuid: Guid, floor: int, used: set<int>,
                  ghost lowest: int)
    returns (r: Option<Binding>)
    requires SectorOk(s.sector) && gaps == GapsOf(s) && 1 <= lowest
    requires forall k :: 1 <= k <= s.count ==> (k in used <==> k < lowest || Find(s.parts, k).Some?)
    ensures r == Bind(s, c, typeGuid, floor, lowest)
  {
    match c {
      case Existing(number, _) =>
        var row := Find(s.parts, number);
        if row.None? || row.value.typeGuid != typeGuid || row.value.attributes != 0
           || Scale(Sectors(row.value), s.sector) < floor {
          return None;
        }
        return Some(Binding(false, number, row.value.start, row.value.end, typeGuid));
      case Create(start, end) =>
        if !CreateOk(s, start, end) {
          return None;
        }
        var inside := false;
        for n := 0 to |gaps|
          invariant inside <==> exists k :: 0 <= k < n && gaps[k].start <= start <= end <= gaps[k].end
        {
          inside := inside || gaps[n].start <= start <= end <= gaps[n].end;
        }
        if !inside {
          return None;
        }
        var slot := 1;
        while slot <= s.count && slot in used
          invariant 1 <= slot
          invariant forall k :: 1 <= k < slot && k <= s.count ==> k in used
          decreases s.count - slot
        {
          slot := slot + 1;
        }
        SlotFound(s, lowest, slot, used);
        if slot > s.count || Scale(end - start + 1, s.sector) < floor {
          return None;
        }
        return Some(Binding(true, slot, start, end, typeGuid));
    }
  }

  lemma SlotFound(s: Snapshot, lowest: int, slot: int, used: set<int>)
    requires 1 <= lowest && 1 <= slot
    requires forall k :: 1 <= k <= s.count ==> (k in used <==> k < lowest || Find(s.parts, k).Some?)
    requires forall k :: 1 <= k < slot && k <= s.count ==> k in used
    requires slot <= s.count ==> slot !in used
    ensures FreeSlot(s.parts, lowest, s.count) == if slot <= s.count then Some(slot) else None
  {
  }

  /** `manual_plan`. */
  method PlanManual(o: Oracles, snapshot: Snapshot, esp: Choice, root: Choice) returns (r: Option<Roles>)
    ensures r == if Normalize(o, snapshot).None? then None else ManualOn(Normalize(o, snapshot).value, esp, root)
  {
    var normal := NormalizeSnapshot(o, snapshot, None);
    if normal.None? {
      return None;
    }
    var s := normal.value;
    if !ChoiceOk(esp) || !ChoiceOk(root) || (root.Existing? && !root.format)
       || |s.parts| + Additions(esp, root) > MAX_PARTITIONS {
      return None;
    }
    var used := set p: Part | p in s.parts :: p.number;
    UsedNumbers(s.parts, used);
    var gaps := FindGaps(s);
    var a := BindRole(s, gaps, esp, EFI_SYSTEM, ESP_FLOOR, used, 1);
    if a.None? {
      return None;
    }
    if a.value.created {
      used := used + {a.value.number};
    }
    var b := BindRole(s, gaps, root, LINUX_DATA, ROOT_FLOOR, used, NextSlot(a.value));
    if b.None? || a.value.number == b.value.number || Overlap(a.value, b.value) {
      return None;
    }
    r := Some(Roles(a.value, b.value));
  }

  lemma UsedNumbers(parts: seq<Part>, used: set<int>)
    requires used == set p: Part | p in parts :: p.number
    ensures forall k :: k in used <==> Find(parts, k).Some?
  {
  }

  // ---- what the plans mean ----

  /** A new partition uses a free slot and free sectors, between alignment boundaries. */
  ghost predicate Fresh(s: Snapshot, b: Binding)
    requires SectorOk(s.sector)
  {
    && b.created && b.start <= b.end
    && 1 <= b.number <= s.count && (forall p: Part :: p in s.parts ==> p.number != b.number)
    && Aligned(b.start, Align(s.sector)) && Aligned(b.end + 1, Align(s.sector))
    && FreeRange(s, b.start, b.end)
  }

  lemma CompactIsSafe(o: Oracles, snapshot: Snapshot, s: Snapshot, selected: Extent, roles: Roles)
    requires Normalize(o, snapshot) == Some(s) && CompactOn(s, selected) == Some(roles)
    ensures Fresh(s, roles.esp) && Fresh(s, roles.root)
    ensures roles.esp.number != roles.root.number && !Overlap(roles.esp, roles.root)
    ensures MaximalGap(s.first, s.last, s.parts, selected)
    ensures selected.start <= roles.esp.start && roles.root.end <= selected.end
    ensures Scale(roles.esp.end - roles.esp.start + 1, s.sector) == ESP_FLOOR
    ensures Scale(roles.root.end - roles.root.start + 1, s.sector) >= ROOT_FLOOR
    ensures roles.root.start == roles.esp.end + 1
    ensures roles.esp.typeGuid == EFI_SYSTEM && roles.root.typeGuid == LINUX_DATA
    ensures LowestUnused(s.parts, roles.esp.number)
    ensures roles.esp.number < roles.root.number
    ensures forall k :: 1 <= k < roles.root.number ==> Taken(s.parts, k) || k == roles.esp.number
    // Nothing aligned is wasted on either side.
    ensures forall m :: Aligned(m, Align(s.sector)) && selected.start <= m ==> roles.esp.start <= m
    ensures forall m :: Aligned(m, Align(s.sector)) && m <= selected.end + 1 ==> m <= roles.root.end + 1
  {
    NormalizeIsNormal(o, snapshot);
    NormalIsLaid(o, s);
    CompactSlots(s, selected, roles);
    hide Normalize, Normal, CompactOn, Fresh, MaximalGap, Laid, LowestUnused;
    CompactExtents(s, selected, roles);
  }

  lemma CompactSlots(s: Snapshot, selected: Extent, roles: Roles)
    requires SectorOk(s.sector) && CompactOn(s, selected) == Some(roles)
    ensures roles.esp.typeGuid == EFI_SYSTEM && roles.root.typeGuid == LINUX_DATA
    ensures LowestUnused(s.parts, roles.esp.number) && roles.esp.number < roles.root.number
    ensures forall k :: 1 <= k < roles.root.number ==> Taken(s.parts, k) || k == roles.esp.number
  {
    FreeSlotIsLowest(s.parts, s.count);
    FreeFrom(s.parts, roles.esp.number + 1, s.count);
  }

  /** The slots below the one that is given out are taken. */
  lemma FreeFrom(parts: seq<Part>, n: int, count: int)
    ensures var slot := FreeSlot(parts, n, count);
            && (slot.Some? ==> n <= slot.value <= count && !Taken(parts, slot.value)
                               && forall k :: n <= k < slot.value ==> Taken(parts, k))
            && (slot.None? ==> forall k :: n <= k <= count ==> Taken(parts, k))
  {
    forall k
      ensures Find(parts, k).Some? <==> Taken(parts, k)
    {
    }
  }

  lemma CompactExtents(s: Snapshot, selected: Extent, roles: Roles)
    requires SectorOk(s.sector) && Laid(s.first, s.parts, s.last) && CompactOn(s, selected) == Some(roles)
    ensures Fresh(s, roles.esp) && Fresh(s, roles.root)
    ensures roles.esp.number != roles.root.number
    ensures MaximalGap(s.first, s.last, s.parts, selected)
    ensures selected.start <= roles.esp.start <= roles.esp.end < roles.root.start <= roles.root.end <= selected.end
    ensures roles.root.start == roles.esp.end + 1
    ensures Scale(roles.esp.end - roles.esp.start + 1, s.sector) == ESP_FLOOR
    ensures Scale(roles.root.end - roles.root.start + 1, s.sector) >= ROOT_FLOOR
    ensures forall m :: Aligned(m, Align(s.sector)) && selected.start <= m ==> roles.esp.start <= m
    ensures forall m :: Aligned(m, Align(s.sector)) && m <= selected.end + 1 ==> m <= roles.root.end + 1
  {
    hide FreeSlot, GapsFrom, Scale, Aligned, Laid, Align;
    GapsAreMaximal(s.first, s.parts, s.last, selected);
    CompactArithmetic(selected, s.sector);
  }

  lemma CompactArithmetic(selected: Extent, sector: int)
    requires SectorOk(sector)
    ensures var a, n := Align(sector), SectorsIn(ESP_FLOOR, sector);
            && Scale(n, sector) == ESP_FLOOR && n > 0
            && selected.start <= Up(selected.start, a) && Down(selected.end + 1, a) <= selected.end + 1
            && Aligned(Up(selected.start, a), a) && Aligned(Up(selected.start, a) + n, a)
            && Aligned(Down(selected.end + 1, a), a)
            && (forall m :: Aligned(m, a) && selected.start <= m ==> Up(selected.start, a) <= m)
            && (forall m :: Aligned(m, a) && m <= selected.end + 1 ==> m <= Down(selected.end + 1, a))
  {
    var a, n := Align(sector), SectorsIn(ESP_FLOOR, sector);
    assert Aligned(n, a) && n > 0;
    forall m
      ensures Aligned(m, a) && selected.start <= m ==> Up(selected.start, a) <= m
      ensures Aligned(m, a) && m <= selected.end + 1 ==> m <= Down(selected.end + 1, a)
    {
      UpIsLeast(selected.start, a, m);
      DownIsGreatest(selected.end + 1, a, m);
    }
    UpIsLeast(selected.start, a, 0);
    DownIsGreatest(selected.end + 1, a, 0);
    MultiplesAdd(Up(selected.start, a), n, a);
  }

  /** A reused partition is the selected row, of the right type and without attributes. */
  ghost predicate Reused(s: Snapshot, c: Choice, b: Binding, typeGuid: Guid) {
    && c.Existing? && b.number == c.number
    && exists p: Part :: p in s.parts && p.number == b.number && p.typeGuid == typeGuid
                         && p.attributes == 0 && p.start == b.start && p.end == b.end
  }

  lemma ManualIsSafe(o: Oracles, snapshot: Snapshot, s: Snapshot, esp: Choice, root: Choice, roles: Roles)
    requires Normalize(o, snapshot) == Some(s) && ManualOn(s, esp, root) == Some(roles)
    ensures roles.esp.created <==> esp.Create?
    ensures roles.root.created <==> root.Create?
    ensures roles.esp.created ==> Fresh(s, roles.esp)
    ensures roles.root.created ==> Fresh(s, roles.root)
    ensures !roles.esp.created ==> Reused(s, esp, roles.esp, EFI_SYSTEM)
    ensures !roles.root.created ==> Reused(s, root, roles.root, LINUX_DATA) && root.format
    ensures roles.esp.number != roles.root.number && !Overlap(roles.esp, roles.root)
    ensures Scale(roles.esp.end - roles.esp.start + 1, s.sector) >= ESP_FLOOR
    ensures Scale(roles.root.end - roles.root.start + 1, s.sector) >= ROOT_FLOOR
    ensures |s.parts| + Additions(esp, root) <= MAX_PARTITIONS
    ensures roles.esp.typeGuid == EFI_SYSTEM && roles.root.typeGuid == LINUX_DATA
    ensures esp.Create? ==> roles.esp.start == esp.start && roles.esp.end == esp.end
    ensures root.Create? ==> roles.root.start == root.start && roles.root.end == root.end
    ensures esp.Create? ==> LowestUnused(s.parts, roles.esp.number)
    ensures root.Create? ==>
              !Taken(s.parts, roles.root.number)
              && forall k :: 1 <= k < roles.root.number ==>
                   Taken(s.parts, k) || (roles.esp.created && k == roles.esp.number)
  {
    NormalizeIsNormal(o, snapshot);
    NormalIsLaid(o, s);
    BoundAsChosen(s, esp, EFI_SYSTEM, ESP_FLOOR, 1);
    BoundAsChosen(s, root, LINUX_DATA, ROOT_FLOOR, NextSlot(roles.esp));
    hide Normalize, Bind, Fresh, Reused, Laid, Scale, Taken;
  }

  /** What a role is bound to: the type of the role, the extent as chosen or the row's, and the
      lowest slot that may be given out. */
  lemma BoundAsChosen(s: Snapshot, c: Choice, typeGuid: Guid, floor: int, lowest: int)
    requires SectorOk(s.sector) && Laid(s.first, s.parts, s.last) && 1 <= lowest
    requires Bind(s, c, typeGuid, floor, lowest).Some?
    ensures var b := Bind(s, c, typeGuid, floor, lowest).value;
            && b.typeGuid == typeGuid && (b.created <==> c.Create?) && Scale(b.end - b.start + 1, s.sector) >= floor
            && (c.Existing? ==> Reused(s, c, b, typeGuid))
            && (c.Create? ==> Fresh(s, b) && b.start == c.start && b.end == c.end && lowest <= b.number
                              && !Taken(s.parts, b.number)
                              && forall k :: lowest <= k < b.number ==> Taken(s.parts, k))
  {
    BoundIsFresh(s, c, typeGuid, floor, lowest);
    FreeFrom(s.parts, lowest, s.count);
    hide Fresh, Laid, FreeSlot, Scale, CreateOk;
  }

  lemma BoundIsFresh(s: Snapshot, c: Choice, typeGuid: Guid, floor: int, lowest: int)
    requires SectorOk(s.sector) && Laid(s.first, s.parts, s.last)
    ensures Bind(s, c, typeGuid, floor, lowest).Some? && c.Create? && 1 <= lowest ==>
              Fresh(s, Bind(s, c, typeGuid, floor, lowest).value)
  {
    if Bind(s, c, typeGuid, floor, lowest).Some? && c.Create? && 1 <= lowest {
      var g :| g in GapsOf(s) && g.start <= c.start <= c.end <= g.end;
      GapsAreMaximal(s.first, s.parts, s.last, g);
    }
  }

  // ---- when a plan exists ----

  /** A role's partition can lie there: it is the selected row, or free and aligned as chosen. */
  ghost predicate RoleAt(s: Snapshot, c: Choice, typeGuid: Guid, floor: int, e: Extent)
    requires SectorOk(s.sector)
  {
    && Scale(e.end - e.start + 1, s.sector) >= floor
    && match c
       case Existing(number, _) =>
         exists p: Part :: p in s.parts && p.number == number && p.typeGuid == typeGuid && p.attributes == 0
                           && e == Extent(p.start, p.end)
       case Create(start, end) =>
         && e == Extent(start, end) && s.first <= start <= end <= s.last
         && Aligned(start, Align(s.sector)) && Aligned(end + 1, Align(s.sector)) && FreeRange(s, start, end)
  }

  ghost predicate Unused(s: Snapshot, k: int) {
    1 <= k <= s.count && !Taken(s.parts, k)
  }

  /** A slot for every role that is to be created. */
  ghost predicate SlotsFor(s: Snapshot, esp: Choice, root: Choice, a: int, b: int) {
    && (esp.Create? ==> Unused(s, a)) && (root.Create? ==> Unused(s, b))
    && (esp.Create? && root.Create? ==> a != b)
  }

  ghost predicate RolesAt(s: Snapshot, esp: Choice, root: Choice, d: Extent, e: Extent)
    requires SectorOk(s.sector)
  {
    && RoleAt(s, esp, EFI_SYSTEM, ESP_FLOOR, d) && RoleAt(s, root, LINUX_DATA, ROOT_FLOOR, e)
    && (d.end < e.start || e.end < d.start)
  }

  /** A manual plan is made exactly if root is to be formatted, the rows and slots suffice, and
      both roles can lie where they were chosen, apart from each other. */
  lemma ManualExactly(o: Oracles, snapshot: Snapshot, s: Snapshot, esp: Choice, root: Choice)
    requires Normalize(o, snapshot) == Some(s)
    ensures ManualOn(s, esp, root).Some? <==>
              && (root.Existing? ==> root.format)
              && |s.parts| + (if esp.Create? && root.Create? then 2 else if esp.Create? || root.Create? then 1 else 0)
                 <= MAX_PARTITIONS
              && (exists a, b :: SlotsFor(s, esp, root, a, b))
              && (exists d, e :: RolesAt(s, esp, root, d, e))
  {
    NormalizeIsNormal(o, snapshot);
    NormalIsLaid(o, s);
    NormalRows(o, s);
    UsableIsSmall(o, s);
    hide Normalize, Normal, ManualOn, SlotsFor, RolesAt, Laid, Numbered;
    if ManualOn(s, esp, root).Some? {
      ManualFits(s, esp, root);
    }
    if a, b, d, e :| SlotsFor(s, esp, root, a, b) && RolesAt(s, esp, root, d, e) {
      if (root.Existing? ==> root.format) && |s.parts| + Additions(esp, root) <= MAX_PARTITIONS {
        FittingIsPlanned(s, esp, root, a, b, d, e);
      }
    }
  }

  lemma UsableIsSmall(o: Oracles, s: Snapshot)
    requires Normal(o, s)
    ensures 0 <= s.first && s.last <= MAX_BYTES
  {
  }

  function Where(b: Binding): Extent {
    Extent(b.start, b.end)
  }

  lemma ManualFits(s: Snapshot, esp: Choice, root: Choice)
    requires SectorOk(s.sector) && Laid(s.first, s.parts, s.last) && Numbered(s) && ManualOn(s, esp, root).Some?
    ensures (root.Existing? ==> root.format) && |s.parts| + Additions(esp, root) <= MAX_PARTITIONS
    ensures exists a, b :: SlotsFor(s, esp, root, a, b)
    ensures exists d, e :: RolesAt(s, esp, root, d, e)
  {
    var a := Bind(s, esp, EFI_SYSTEM, ESP_FLOOR, 1).value;
    var b := Bind(s, root, LINUX_DATA, ROOT_FLOOR, NextSlot(a)).value;
    BoundIsAt(s, esp, EFI_SYSTEM, ESP_FLOOR, 1);
    BoundIsAt(s, root, LINUX_DATA, ROOT_FLOOR, NextSlot(a));
    hide Bind, RoleAt, Laid, Numbered, Unused;
    assert SlotsFor(s, esp, root, a.number, b.number);
    assert RolesAt(s, esp, root, Where(a), Where(b));
  }

  /** What a role is bound to. */
  lemma BoundIsAt(s: Snapshot, c: Choice, typeGuid: Guid, floor: int, lowest: int)
    requires SectorOk(s.sector) && Laid(s.first, s.parts, s.last) && Numbered(s) && 1 <= lowest
    requires Bind(s, c, typeGuid, floor, lowest).Some?
    ensures var b := Bind(s, c, typeGuid, floor, lowest).value;
            && RoleAt(s, c, typeGuid, floor, Where(b)) && b.start <= b.end
            && (b.created <==> c.Create?) && (c.Create? ==> Unused(s, b.number) && lowest <= b.number)
  {
    BoundIsFresh(s, c, typeGuid, floor, lowest);
    FreeFrom(s.parts, lowest, s.count);
    hide Laid, FreeSlot;
  }

  lemma FittingIsPlanned(s: Snapshot, esp: Choice, root: Choice, a: int, b: int, d: Extent, e: Extent)
    requires SectorOk(s.sector) && Laid(s.first, s.parts, s.last) && Numbered(s)
    requires s.last <= MAX_BYTES && 0 <= s.first
    requires (root.Existing? ==> root.format) && |s.parts| + Additions(esp, root) <= MAX_PARTITIONS
    requires SlotsFor(s, esp, root, a, b) && RolesAt(s, esp, root, d, e)
    ensures ManualOn(s, esp, root).Some?
  {
    if esp.Existing? && root.Existing? && esp.number == root.number {
      SameRow(s, esp, root, d, e);
    }
    hide Bind, RoleAt, Laid, Numbered, Taken;
    AtIsBound(s, esp, EFI_SYSTEM, ESP_FLOOR, 1, a, d);
    var first := Bind(s, esp, EFI_SYSTEM, ESP_FLOOR, 1).value;
    var free := if esp.Create? && b == first.number then a else b;
    AtIsBound(s, root, LINUX_DATA, ROOT_FLOOR, NextSlot(first), free, e);
  }

  /** One row cannot play both roles. */
  lemma SameRow(s: Snapshot, esp: Choice, root: Choice, d: Extent, e: Extent)
    requires SectorOk(s.sector) && Numbered(s) && RolesAt(s, esp, root, d, e)
    requires esp.Existing? && root.Existing?
    ensures esp.number != root.number
  {
    hide Scale;
  }

  /** A role that can lie there is bound there, if a slot from `lowest` on is left for it. */
  lemma AtIsBound(s: Snapshot, c: Choice, typeGuid: Guid, floor: int, lowest: int, free: int, e: Extent)
    requires SectorOk(s.sector) && Laid(s.first, s.parts, s.last) && Numbered(s) && 1 <= lowest
    requires s.last <= MAX_BYTES && 0 <= s.first
    requires RoleAt(s, c, typeGuid, floor, e) && (c.Create? ==> Unused(s, free) && lowest <= free)
    ensures ChoiceOk(c) && Bind(s, c, typeGuid, floor, lowest).Some?
    ensures var b := Bind(s, c, typeGuid, floor, lowest).value;
            && Where(b) == e && b.start <= b.end && (b.created <==> c.Create?)
            && (c.Existing? ==> b.number == c.number && Taken(s.parts, b.number)) && 1 <= b.number
            && (c.Create? ==> Unused(s, b.number) && forall k :: lowest <= k && Unused(s, k) ==> b.number <= k)
  {
    FreeFrom(s.parts, lowest, s.count);
    if c.Create? {
      FreeRunInGap(s, c.start, c.end);
    } else {
      assert Taken(s.parts, c.number);
    }
    hide Laid, FreeSlot;
  }

  /** A free run lies inside one listed gap. */
  lemma FreeRunInGap(s: Snapshot, start: int, end: int)
    requires Laid(s.first, s.parts, s.last) && start <= end && FreeRange(s, start, end)
    ensures InsideGap(s, start, end)
  {
    assert Free(s.first, s.last, s.parts, start);
    var g := FreeSectorHasGap(s.first, s.parts, s.last, start);
    GapsAreMaximal(s.first, s.parts, s.last, g);
    assert start <= g.end + 1 <= end ==> Free(s.first, s.last, s.parts, g.end + 1);
  }

  /** Two aligned boundaries in the gap with room for both floors between them. */
  ghost predicate RoomBetween(s: Snapshot, selected: Extent, e: int, r: int)
    requires SectorOk(s.sector)
  {
    && Aligned(e, Align(s.sector)) && Aligned(r, Align(s.sector))
    && selected.start <= e && r <= selected.end + 1 && Scale(r - e, s.sector) >= ESP_FLOOR + ROOT_FLOOR
  }

  /** A compact plan is made exactly for a maximal gap with room for both floors, if two slots are
      left. */
  lemma CompactExactly(o: Oracles, snapshot: Snapshot, s: Snapshot, selected: Extent)
    requires Normalize(o, snapshot) == Some(s)
    ensures CompactOn(s, selected).Some? <==>
              && MaximalGap(s.first, s.last, s.parts, selected)
              && (exists a, b :: Unused(s, a) && Unused(s, b) && a != b)
              && (exists e, r :: RoomBetween(s, selected, e, r))
  {
    hide Normalize, Normal, Laid, MaximalGap, Unused, RoomBetween, FreeSlot, GapsOf, Up, Down, Scale, SectorsIn, Align,
         GeometryOk, Admissible;
    NormalizeIsNormal(o, snapshot);
    NormalIsLaid(o, s);
    UsableIsSmall(o, s);
    TwoUnused(s);
    CompactRoom(s, selected);
    GapIsListed(s, selected);
  }

  lemma GapIsListed(s: Snapshot, g: Extent)
    requires Laid(s.first, s.parts, s.last) && 0 <= s.first && s.last <= MAX_BYTES
    ensures MaximalGap(s.first, s.last, s.parts, g) <==> g in GapsOf(s) && 0 <= g.start <= g.end <= MAX_BYTES
  {
    GapsAreMaximal(s.first, s.parts, s.last, g);
    if MaximalGap(s.first, s.last, s.parts, g) {
      assert Free(s.first, s.last, s.parts, g.start) && Free(s.first, s.last, s.parts, g.end);
    }
  }

  lemma TwoUnused(s: Snapshot)
    ensures var first := FreeSlot(s.parts, 1, s.count);
            (first.Some? && FreeSlot(s.parts, first.value + 1, s.count).Some?)
            <==> exists a, b :: Unused(s, a) && Unused(s, b) && a != b
  {
    var first := FreeSlot(s.parts, 1, s.count);
    FreeFrom(s.parts, 1, s.count);
    if first.Some? {
      var second := FreeSlot(s.parts, first.value + 1, s.count);
      FreeFrom(s.parts, first.value + 1, s.count);
      if second.Some? {
        assert Unused(s, first.value) && Unused(s, second.value);
      }
    }
  }

  lemma CompactRoom(s: Snapshot, selected: Extent)
    requires SectorOk(s.sector)
    ensures var a := Align(s.sector);
            var rootStart := Up(selected.start, a) + SectorsIn(ESP_FLOOR, s.sector);
            var rootEnd := Down(selected.end + 1, a) - 1;
            (rootStart <= rootEnd && Scale(rootEnd - rootStart + 1, s.sector) >= ROOT_FLOOR)
            <==> exists e, r :: RoomBetween(s, selected, e, r)
  {
    var a := Align(s.sector);
    var e0, r0 := Up(selected.start, a), Down(selected.end + 1, a);
    CompactArithmetic(selected, s.sector);
    hide Up, Down, Aligned;
    if Scale(r0 - e0, s.sector) >= ESP_FLOOR + ROOT_FLOOR {
      assert RoomBetween(s, selected, e0, r0);
    }
    if e, r :| RoomBetween(s, selected, e, r) {
      assert e0 <= e && r <= r0;
    }
  }

  // ---- the inventory afterwards ----

  function Rows(roles: Roles, espGuid: Guid, rootGuid: Guid): seq<Part> {
    (if roles.esp.created then [NewRow(roles.esp, espGuid)] else [])
    + (if roles.root.created then [NewRow(roles.root, rootGuid)] else [])
  }

  function AfterCreation(s: Snapshot, rows: seq<Part>, fingerprint: Digest): Snapshot {
    s.(parts := s.parts + rows, fingerprint := fingerprint)
  }

  /** The tool that creates the partitions gives each an identity of its own. */
  ghost predicate NewIdentities(s: Snapshot, rows: seq<Part>) {
    && (forall r: Part :: r in rows ==> r.partGuid != 0 && r.partGuid != s.diskGuid)
    && (forall r: Part, p: Part :: r in rows && p in s.parts ==> p.partGuid != r.partGuid)
    && (forall i, j :: 0 <= i < j < |rows| ==> rows[i].partGuid != rows[j].partGuid)
  }

  lemma FreeIsApart(s: Snapshot, b: Binding, p: Part)
    requires FreeRange(s, b.start, b.end) && b.start <= b.end && p in s.parts && p.start <= p.end
    ensures p.end < b.start || b.end < p.start
  {
    var x := if b.start <= p.start then p.start else b.start;
    if b.start <= x <= b.end {
      assert Free(s.first, s.last, s.parts, x);
      assert !Within(p, x);
    }
  }

  function Numbers(parts: seq<Part>): set<int> {
    set p: Part | p in parts :: p.number
  }

  lemma {:induction false} NumbersCount(parts: seq<Part>)
    requires forall i, j :: 0 <= i < j < |parts| ==> parts[i].number != parts[j].number
    ensures |Numbers(parts)| == |parts|
  {
    if parts != [] {
      var front, last := parts[..|parts| - 1], parts[|parts| - 1];
      NumbersCount(front);
      assert parts == front + [last];
      forall p: Part | p in front
        ensures p.number != last.number
      {
        var i :| 0 <= i < |front| && front[i] == p;
        assert parts[i].number != parts[|parts| - 1].number;
      }
      NumbersStep(front, last);
    }
  }

  lemma NumbersStep(front: seq<Part>, last: Part)
    ensures Numbers(front + [last]) == Numbers(front) + {last.number}
  {
    forall p: Part
      ensures p in front + [last] <==> p in front || p == last
    {
    }
    forall k
      ensures k in Numbers(front + [last]) <==> k in Numbers(front) || k == last.number
    {
      if k == last.number {
        assert last in front + [last];
      }
    }
  }

  function Slots(n: nat): (r: set<int>)
    ensures |r| == n && forall k :: k in r <==> 1 <= k <= n
  {
    if n == 0 then {} else Slots(n - 1) + {n}
  }

  /** Distinct slots between 1 and the table's size cannot outnumber it. */
  lemma RowsFitTable(parts: seq<Part>, count: nat)
    requires forall i, j :: 0 <= i < j < |parts| ==> parts[i].number != parts[j].number
    requires forall p: Part :: p in parts ==> 1 <= p.number <= count
    ensures |parts| <= count
  {
    NumbersCount(parts);
    assert Slots(count) == Numbers(parts) + (Slots(count) - Numbers(parts));
  }

  /** The rows of a safe plan. */
  ghost predicate SafeRoles(s: Snapshot, roles: Roles)
    requires SectorOk(s.sector)
  {
    && (roles.esp.created ==> Fresh(s, roles.esp) && roles.esp.typeGuid != 0)
    && (roles.root.created ==> Fresh(s, roles.root) && roles.root.typeGuid != 0)
    && roles.esp.number != roles.root.number && !Overlap(roles.esp, roles.root)
  }

  lemma NewRowOk(s: Snapshot, b: Binding, guid: Guid)
    requires Admissible(s) && Fresh(s, b) && guid != 0 && guid != s.diskGuid && b.typeGuid != 0
    requires forall p: Part :: p in s.parts ==> p.partGuid != guid
    ensures RowOk(s, NewRow(b, guid))
    ensures forall p: Part :: p in s.parts ==> Compatible(p, NewRow(b, guid))
  {
    assert Free(s.first, s.last, s.parts, b.start) && Free(s.first, s.last, s.parts, b.end);
    forall p: Part | p in s.parts
      ensures Compatible(p, NewRow(b, guid))
    {
      assert RowOk(s, p);
      FreeIsApart(s, b, p);
    }
  }

  /** After creation every rule of the inventory holds again but possibly the limit on rows. */
  lemma AfterCreationRows(s: Snapshot, roles: Roles, espGuid: Guid, rootGuid: Guid)
    requires Admissible(s) && SafeRoles(s, roles)
    requires NewIdentities(s, Rows(roles, espGuid, rootGuid))
    ensures var all := s.parts + Rows(roles, espGuid, rootGuid);
            && PairwiseCompatible(all) && |all| <= s.count
            && forall p :: p in all ==> RowOk(s, p) && p.partGuid != s.diskGuid
  {
    hide FreeRange, GeometryOk, DeviceOk;
    var rows := Rows(roles, espGuid, rootGuid);
    var all := s.parts + rows;
    if roles.esp.created {
      assert rows[0] == NewRow(roles.esp, espGuid);
      NewRowOk(s, roles.esp, espGuid);
    }
    if roles.root.created {
      assert rows[|rows| - 1] == NewRow(roles.root, rootGuid);
      NewRowOk(s, roles.root, rootGuid);
    }
    if |rows| == 2 {
      assert Compatible(rows[0], rows[1]);
    }
    forall i, j | 0 <= i < j < |all|
      ensures Compatible(all[i], all[j])
    {
      if j < |s.parts| {
        assert Compatible(s.parts[i], s.parts[j]);
      } else if i < |s.parts| {
        assert s.parts[i] in s.parts && rows[j - |s.parts|] in rows;
      }
    }
    forall p | p in all
      ensures RowOk(s, p) && p.partGuid != s.diskGuid
    {
      assert p in s.parts || p in rows;
    }
    forall i, j | 0 <= i < j < |all|
      ensures all[i].number != all[j].number
    {
      assert Compatible(all[i], all[j]);
    }
    RowsFitTable(all, s.count);
  }

  lemma AfterCreationExactly(o: Oracles, s: Snapshot, roles: Roles, espGuid: Guid, rootGuid: Guid, fingerprint: Digest)
    requires Admissible(s) && SafeRoles(s, roles)
    requires NewIdentities(s, Rows(roles, espGuid, rootGuid))
    ensures var after := AfterCreation(s, Rows(roles, espGuid, rootGuid), fingerprint);
            Normalize(o, after).Some?
            <==> |after.parts| <= MAX_PARTITIONS && o.jsonSize(Sorted(after)) <= MAX_JSON
  {
    AfterCreationRows(s, roles, espGuid, rootGuid);
    var after := AfterCreation(s, Rows(roles, espGuid, rootGuid), fingerprint);
    forall p
      ensures RowOk(after, p) == RowOk(s, p)
    {
    }
  }

  /** After a manual plan is carried out the inventory is accepted again, JSON size apart. */
  lemma ManualStaysReadable(o: Oracles, snapshot: Snapshot, s: Snapshot, esp: Choice, root: Choice, roles: Roles,
                            espGuid: Guid, rootGuid: Guid, fingerprint: Digest)
    requires Normalize(o, snapshot) == Some(s) && ManualOn(s, esp, root) == Some(roles)
    requires NewIdentities(s, Rows(roles, espGuid, rootGuid))
    ensures var after := AfterCreation(s, Rows(roles, espGuid, rootGuid), fingerprint);
            Normalize(o, after).Some? <==> o.jsonSize(Sorted(after)) <= MAX_JSON
  {
    NormalizeIsNormal(o, snapshot);
    ManualIsSafe(o, snapshot, s, esp, root, roles);
    hide Normalize, ManualOn;
    AfterCreationExactly(o, s, roles, espGuid, rootGuid, fingerprint);
  }

  /** After a compact plan it is accepted exactly when there was room for two more rows under
      the limit on rows, which this plan does not check. */
  lemma CompactReadableExactly(o: Oracles, snapshot: Snapshot, s: Snapshot, selected: Extent, roles: Roles,
                               espGuid: Guid, rootGuid: Guid, fingerprint: Digest)
    requires Normalize(o, snapshot) == Some(s) && CompactOn(s, selected) == Some(roles)
    requires NewIdentities(s, Rows(roles, espGuid, rootGuid))
    ensures var after := AfterCreation(s, Rows(roles, espGuid, rootGuid), fingerprint);
            Normalize(o, after).Some?
            <==> |s.parts| + 2 <= MAX_PARTITIONS && o.jsonSize(Sorted(after)) <= MAX_JSON
  {
    NormalizeIsNormal(o, snapshot);
    CompactIsSafe(o, snapshot, s, selected, roles);
    assert roles.esp.created && roles.root.created;
    hide Normalize, CompactOn;
    AfterCreationExactly(o, s, roles, espGuid, rootGuid, fingerprint);
  }

  // ---- an inventory that a compact plan makes unreadable ----

  function Crowd(n: nat): (r: seq<Part>)
    requires n <= 31
    ensures |r| == n
    ensures forall i :: 0 <= i < n ==> r[i] == Part(i + 1, 2048 + i, 2048 + i, LINUX_DATA, i + 2, 0)
  {
    if n == 0 then [] else Crowd(n - 1) + [Part(n, 2047 + n, 2047 + n, LINUX_DATA, n + 1, 0)]
  }

  const CROWDED := Snapshot(Device("/dev/sda", 8, 0, 107374182400, 1), 512, 2048, 209715166, 128, 128,
                            2, 209715167, 1, 0, Crowd(31))

  lemma CrowdedIsNormal(o: Oracles)
    requires o.jsonSize(CROWDED) <= MAX_JSON
    ensures Normal(o, CROWDED) && Normalize(o, CROWDED) == Some(CROWDED)
  {
    assert Ascending(Crowd(31));
    assert PairwiseCompatible(Crowd(31));
    var path := "/dev/sda";
    assert path[..5] == "/dev/";
    NormalizeIsNormal(o, CROWDED);
  }

  /** Thirty-one rows pass, the plan is accepted, and the result has one row too many. */
  lemma CompactCanOverflow(o: Oracles)
    requires o.jsonSize(CROWDED) <= MAX_JSON
    ensures var selected := Extent(2079, 209715166);
            && Normalize(o, CROWDED) == Some(CROWDED)
            && CompactOn(CROWDED, selected).Some?
            && var rows := Rows(CompactOn(CROWDED, selected).value, 100, 101);
            && NewIdentities(CROWDED, rows)
            && Normalize(o, AfterCreation(CROWDED, rows, 0)).None?
  {
    var selected := Extent(2079, 209715166);
    CrowdedIsNormal(o);
    CrowdedPlan(o);
    var roles := CompactOn(CROWDED, selected).value;
    hide CompactOn, Normalize, Crowd;
    CompactReadableExactly(o, CROWDED, CROWDED, selected, roles, 100, 101, 0);
  }

  lemma CrowdedPlan(o: Oracles)
    requires Normal(o, CROWDED)
    ensures var selected := Extent(2079, 209715166);
            && CompactOn(CROWDED, selected).Some?
            && NewIdentities(CROWDED, Rows(CompactOn(CROWDED, selected).value, 100, 101))
  {
    var selected := Extent(2079, 209715166);
    CrowdedGap(o);
    CrowdSlots();
    hide GapsOf, FreeSlot, NewIdentities, Crowd, Normal;
    PlainPlan(CROWDED, selected);
    CrowdedIdentities(CompactOn(CROWDED, selected).value);
  }

  lemma PlainPlan(s: Snapshot, selected: Extent)
    requires s.sector == 512 && s.count == 128
    requires selected == Extent(2079, 209715166) && selected in GapsOf(s)
    requires FreeSlot(s.parts, 1, 128) == Some(32) && FreeSlot(s.parts, 33, 128) == Some(33)
    ensures CompactOn(s, selected).Some?
    ensures CompactOn(s, selected).value.esp.created && CompactOn(s, selected).value.root.created
  {
  }

  lemma CrowdedIdentities(roles: Roles)
    requires roles.esp.created && roles.root.created
    ensures NewIdentities(CROWDED, Rows(roles, 100, 101))
  {
    assert forall p: Part :: p in CROWDED.parts ==> 2 <= p.partGuid <= 32;
  }

  lemma CrowdedGap(o: Oracles)
    requires Normal(o, CROWDED)
    ensures Extent(2079, 209715166) in GapsOf(CROWDED)
  {
    var s, selected := CROWDED, Extent(2079, 209715166);
    NormalIsLaid(o, s);
    hide Normal, Laid, GapsFrom;
    assert MaximalGap(s.first, s.last, s.parts, selected) by {
      assert s.parts[30] in s.parts && Within(s.parts[30], 2078);
      assert !Free(s.first, s.last, s.parts, 2078);
    }
    GapsAreMaximal(s.first, s.parts, s.last, selected);
  }

  lemma CrowdSlots()
    ensures FreeSlot(Crowd(31), 1, 128) == Some(32) && FreeSlot(Crowd(31), 33, 128) == Some(33)
  {
    hide Crowd, Find, FreeSlot;
    var parts := Crowd(31);
    forall k | 1 <= k <= 31
      ensures Find(parts, k).Some?
    {
      assert parts[k - 1] in parts && parts[k - 1].number == k;
    }
    assert Find(parts, 32).None? && Find(parts, 33).None?;
    var first, second := FreeSlot(parts, 1, 128), FreeSlot(parts, 33, 128);
    assert first.Some? && first.value <= 32;
    assert second.Some? && second.value <= 33;
  }
}
