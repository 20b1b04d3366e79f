/** The four metadata patches of a shrink, and the proof that applying them makes
    the reader decode exactly the planned inventory. */
module UpdatePlan {
  import opened Bytes
  import opened Gpt
  import opened GptReader
  import opened GptPrinter
  import opened Preservation

  /** The numbers a patch needs from the plan. */
  datatype Change = Change(layout: Layout, newEnd: nat, rootStart: nat, rootEnd: nat, rootGuid: Guid)

  predicate ChangeFits(c: Change) {
    && c.newEnd < 0x1_0000_0000_0000_0000
    && c.rootStart < 0x1_0000_0000_0000_0000
    && c.rootEnd < 0x1_0000_0000_0000_0000
  }

  function RootPart(c: Change): Part {
    Part(c.layout.root, c.rootStart, c.rootEnd, LINUX_DATA, c.rootGuid, 0)
  }

  /** The bytes of the new root entry. */
  function RootEntry(entry: nat, c: Change): (r: Bytes)
    requires entry >= 128
    ensures |r| == entry
  {
    ToLe(LINUX_DATA, 16) + (ToLe(c.rootGuid, 16) + RootExtentBytes(entry, c))
  }

  function RootExtentBytes(entry: nat, c: Change): (r: Bytes)
    requires entry >= 128
    ensures |r| == entry - 32
  {
    ToLe(c.rootStart, 8) + (ToLe(c.rootEnd, 8) + (ToLe(0, 8) + Zeros(entry - 56)))
  }

  function NewArray(table: Bytes, entry: nat, c: Change): (r: Bytes)
    requires SlotsFit(table, entry, c.layout)
    ensures |r| == |table|
  {
    SlotBounds(table, entry, c.layout);
    TwoSplices(table, EndOffset(entry, c), ToLe(c.newEnd, 8), SlotOffset(entry, c), RootEntry(entry, c))
  }

  /** Where the source row keeps its last sector. */
  function EndOffset(entry: nat, c: Change): int
    requires EntrySizeOk(entry)
  {
    EntrySpan(c.layout.source - 1, entry) + 40
  }

  /** Where the root slot starts. */
  function SlotOffset(entry: nat, c: Change): int
    requires EntrySizeOk(entry)
  {
    EntrySpan(c.layout.root - 1, entry)
  }

  /** The header with a fresh array CRC, then a fresh CRC of itself. */
  function NewHeader(o: Oracles, raw: Bytes, tableCrc: nat): (r: Bytes)
    requires |raw| >= 512 && 92 <= U32(raw, 12) <= |raw|
    ensures |r| == |raw|
  {
    var zeroed := Splice(Splice(raw, 88, ToLe(tableCrc, 4)), 16, Zeros(4));
    SpliceOutside(Splice(raw, 88, ToLe(tableCrc, 4)), 16, Zeros(4), 12, 16);
    SpliceOutside(raw, 88, ToLe(tableCrc, 4), 12, 16);
    Splice(zeroed, 16, ToLe(o.Crc(zeroed[..U32(zeroed, 12)]), 4))
  }

  predicate Patchable(m: Metadata, sector: int, c: Change) {
    && MaskFits(m, sector, c.layout) && ArrayFits(m, sector) && ChangeFits(c)
    && 92 <= U32(m.ph, 12) <= |m.ph| && 92 <= U32(m.bh, 12) <= |m.bh|
  }

  /** All five regions after the change. */
  function NewMetadata(o: Oracles, m: Metadata, sector: int, c: Change): Metadata
    requires Patchable(m, sector, c)
  {
    var entry, count := EntryBytes(m), EntryCount(m);
    var pa, ba := NewArray(m.pa, entry, c), NewArray(m.ba, entry, c);
    Metadata(m.mbr,
             NewHeader(o, m.ph, o.Crc(Used(pa, entry, count))), pa, ba,
             NewHeader(o, m.bh, o.Crc(Used(ba, entry, count))))
  }

  // The same changes, made in place as the program makes them

  method Overwrite(raw: array<byte>, off: nat, data: Bytes)
    requires off + |data| <= raw.Length
    modifies raw
    ensures raw[..] == Splice(old(raw[..]), off, data)
  {
    for i := 0 to |data|
      invariant forall k :: 0 <= k < raw.Length ==> raw[k] == if off <= k < off + i then data[k - off] else old(raw[k])
    {
      raw[off + i] := data[i];
    }
  }

  method PatchArrayInPlace(table: array<byte>, entry: nat, c: Change)
    requires SlotsFit(table[..], entry, c.layout)
    modifies table
    ensures table[..] == NewArray(old(table[..]), entry, c)
  {
    var endOffset, slotOffset := EndOffset(entry, c), SlotOffset(entry, c);
    SlotBounds(table[..], entry, c.layout);
    Overwrite(table, endOffset, ToLe(c.newEnd, 8));
    Overwrite(table, slotOffset, RootEntry(entry, c));
  }

  method PatchHeaderInPlace(o: Oracles, raw: array<byte>, tableCrc: nat)
    requires raw.Length >= 512 && 92 <= U32(raw[..], 12) <= raw.Length
    modifies raw
    ensures raw[..] == NewHeader(o, old(raw[..]), tableCrc)
  {
    ghost var before := raw[..];
    Overwrite(raw, 88, ToLe(tableCrc, 4));
    ZeroFill(raw, 16, 4);
    SpliceOutside(Splice(before, 88, ToLe(tableCrc, 4)), 16, Zeros(4), 12, 16);
    SpliceOutside(before, 88, ToLe(tableCrc, 4), 12, 16);
    var headerBytes := U32(raw[..], 12);
    Overwrite(raw, 16, ToLe(o.Crc(raw[..headerBytes]), 4));
  }

  // Headers

  /** Field bytes outside 16..20 and 88..92 survive. */
  lemma NewHeaderSlice(o: Oracles, raw: Bytes, tableCrc: nat, a: nat, b: nat)
    requires |raw| >= 512 && 92 <= U32(raw, 12) <= |raw|
    requires a <= b <= |raw|
    requires b <= 16 || (20 <= a && b <= 88) || 92 <= a
    ensures NewHeader(o, raw, tableCrc)[a..b] == raw[a..b]
  {
  }

  lemma NewHeaderCrcs(o: Oracles, raw: Bytes, tableCrc: nat)
    requires |raw| >= 512 && 92 <= U32(raw, 12) <= |raw|
    requires tableCrc < 0x1_0000_0000
    ensures var h := NewHeader(o, raw, tableCrc);
            && U32(h, 12) == U32(raw, 12)
            && U32(h, 88) == tableCrc
            && HeaderCrc(o, h) == U32(h, 16)
  {
    Pow256Values();
    var h := NewHeader(o, raw, tableCrc);
    var zeroed := Splice(Splice(raw, 88, ToLe(tableCrc, 4)), 16, Zeros(4));
    NewHeaderSlice(o, raw, tableCrc, 12, 16);
    assert zeroed[12..16] == raw[12..16];
    assert h[88..92] == ToLe(tableCrc, 4);
    LeOfToLe(tableCrc, 4);
    var crc := o.Crc(zeroed[..U32(zeroed, 12)]);
    assert h[16..20] == ToLe(crc, 4);
    LeOfToLe(crc, 4);
    assert Splice(h, 16, Zeros(4)) == zeroed;
  }

  /** A valid header stays valid and keeps every field but the two CRCs. */
  lemma NewHeaderOk(o: Oracles, raw: Bytes, tableCrc: nat, lba: int, alternate: int)
    requires |raw| >= 512 && HeaderOk(o, raw, lba, alternate) && tableCrc < 0x1_0000_0000
    ensures HeaderOk(o, NewHeader(o, raw, tableCrc), lba, alternate)
  {
    NewHeaderCrcs(o, raw, tableCrc);
    NewHeaderFields(o, raw, tableCrc);
    NewHeaderSlice(o, raw, tableCrc, 0, 8);
    NewHeaderSlice(o, raw, tableCrc, 92, |raw|);
    assert raw[92..] == raw[92..|raw|];
  }

  lemma NewHeaderFields(o: Oracles, raw: Bytes, tableCrc: nat)
    requires |raw| >= 512 && 92 <= U32(raw, 12) <= |raw|
    ensures var h := NewHeader(o, raw, tableCrc);
            && U32(h, 8) == U32(raw, 8) && U32(h, 12) == U32(raw, 12) && U32(h, 20) == U32(raw, 20)
            && U64(h, 24) == U64(raw, 24) && U64(h, 32) == U64(raw, 32)
            && U64(h, 40) == U64(raw, 40) && U64(h, 48) == U64(raw, 48)
            && h[56..72] == raw[56..72]
            && U64(h, 72) == U64(raw, 72) && U32(h, 80) == U32(raw, 80) && U32(h, 84) == U32(raw, 84)
  {
    NewHeaderSlice(o, raw, tableCrc, 8, 12);
    NewHeaderSlice(o, raw, tableCrc, 12, 16);
    NewHeaderSlice(o, raw, tableCrc, 20, 24);
    NewHeaderSlice(o, raw, tableCrc, 24, 32);
    NewHeaderSlice(o, raw, tableCrc, 32, 40);
    NewHeaderSlice(o, raw, tableCrc, 40, 48);
    NewHeaderSlice(o, raw, tableCrc, 48, 56);
    NewHeaderSlice(o, raw, tableCrc, 56, 72);
    NewHeaderSlice(o, raw, tableCrc, 72, 80);
    NewHeaderSlice(o, raw, tableCrc, 80, 84);
    NewHeaderSlice(o, raw, tableCrc, 84, 88);
  }

  // Entries

  /** A field reads back; what follows it is found behind it. */
  lemma FieldReadsBack(v: nat, n: nat, rest: Bytes)
    requires v < Pow256(n)
    ensures Le((ToLe(v, n) + rest)[0..n]) == v
    ensures forall a, b :: 0 <= a <= b <= |rest| ==> (ToLe(v, n) + rest)[n + a..n + b] == rest[a..b]
  {
  }

  lemma RootExtentFields(entry: nat, c: Change)
    requires entry >= 128 && ChangeFits(c)
    ensures var r := RootExtentBytes(entry, c);
            U64(r, 0) == c.rootStart && U64(r, 8) == c.rootEnd && U64(r, 16) == 0
  {
    Pow256Values();
    var f4 := ToLe(0, 8) + Zeros(entry - 56);
    var f3 := ToLe(c.rootEnd, 8) + f4;
    var r := ToLe(c.rootStart, 8) + f3;
    FieldReadsBack(c.rootStart, 8, f3);
    FieldReadsBack(c.rootEnd, 8, f4);
    FieldReadsBack(0, 8, Zeros(entry - 56));
    assert r[8 + 0..8 + 8] == f3[0..8];
    assert r[8 + 8..8 + 16] == f3[8 + 0..8 + 8] == f4[0..8];
  }

  lemma RootEntryFields(entry: nat, c: Change)
    requires entry >= 128 && ChangeFits(c)
    ensures var r := RootEntry(entry, c);
            && U128(r, 0) == LINUX_DATA && U128(r, 16) == c.rootGuid
            && U64(r, 32) == c.rootStart && U64(r, 40) == c.rootEnd && U64(r, 48) == 0
  {
    Pow256Values();
    var f2 := RootExtentBytes(entry, c);
    var f1 := ToLe(c.rootGuid, 16) + f2;
    var r := RootEntry(entry, c);
    FieldReadsBack(LINUX_DATA, 16, f1);
    FieldReadsBack(c.rootGuid, 16, f2);
    RootExtentFields(entry, c);
    assert r[16 + 0..16 + 16] == f1[0..16];
    assert r[16 + 16..16 + 24] == f1[16 + 0..16 + 8] == f2[0..8];
    assert r[16 + 24..16 + 32] == f1[16 + 8..16 + 16] == f2[8..16];
    assert r[16 + 32..16 + 40] == f1[16 + 16..16 + 24] == f2[16..24];
  }

  lemma RootEntryShape(entry: nat, c: Change)
    requires entry >= 128
    ensures Occupied(RootEntry(entry, c)) && AllZero(RootEntry(entry, c)[128..])
  {
    var r := RootEntry(entry, c);
    assert r[0] == ToLe(LINUX_DATA, 16)[0] == LINUX_DATA % 256;
    assert r[..16][0] != 0;
    forall i | 128 <= i < entry ensures r[i] == 0 {
      assert r[i] == Zeros(entry - 56)[i - 56];
    }
  }

  /** The new entry is the planned row, printed without a name. */
  lemma RootEntryIsPrinted(entry: nat, c: Change)
    requires entry >= 128 && ChangeFits(c) && c.layout.root >= 1
    ensures RootEntry(entry, c) == RowBytes(RootPart(c), Zeros(72), entry)
  {
    hide ToLe;
    assert ToLe(0, 8) + Zeros(entry - 56) == ToLe(0, 8) + Zeros(72) + Zeros(entry - 128);
  }

  /** Slots other than source and root keep their bytes. */
  lemma OtherRow(table: Bytes, entry: nat, c: Change, n: nat)
    requires SlotsFit(table, entry, c.layout) && Holds(table, entry, n + 1)
    requires n + 1 != c.layout.source && n + 1 != c.layout.root
    ensures Row(NewArray(table, entry, c), entry, n) == Row(table, entry, n)
  {
    hide Splice, ToLe, RootEntry;
    SlotBounds(table, entry, c.layout);
    SlotsDisjoint(entry, n, c.layout.source - 1);
    SlotsDisjoint(entry, n, c.layout.root - 1);
    TwoSplicesOutside(table, EndOffset(entry, c), ToLe(c.newEnd, 8), SlotOffset(entry, c), RootEntry(entry, c),
                      EntrySpan(n, entry), EntrySpan(n + 1, entry));
  }

  lemma SlotsDisjoint(entry: nat, i: int, j: int)
    requires EntrySizeOk(entry) && i != j
    ensures EntrySpan(i + 1, entry) == EntrySpan(i, entry) + entry
    ensures EntrySpan(j + 1, entry) == EntrySpan(j, entry) + entry
    ensures EntrySpan(i + 1, entry) <= EntrySpan(j, entry) || EntrySpan(j + 1, entry) <= EntrySpan(i, entry)
  {
  }

  lemma RootRow(table: Bytes, entry: nat, c: Change)
    requires SlotsFit(table, entry, c.layout)
    ensures Row(NewArray(table, entry, c), entry, c.layout.root - 1) == RootEntry(entry, c)
  {
  }

  lemma SourceRow(table: Bytes, entry: nat, c: Change)
    requires SlotsFit(table, entry, c.layout)
    ensures Row(NewArray(table, entry, c), entry, c.layout.source - 1)
            == Splice(Row(table, entry, c.layout.source - 1), 40, ToLe(c.newEnd, 8))
  {
    hide EntrySpan, NewArray, Row, Splice, TwoSplices, ToLe, RootEntry;
    var s := EntrySpan(c.layout.source - 1, entry);
    SlotBounds(table, entry, c.layout);
    SlotsDisjoint(entry, c.layout.source - 1, c.layout.root - 1);
    SourceWindow(table, entry, c, s);
    TwoSplicesFirst(table, EndOffset(entry, c), ToLe(c.newEnd, 8), SlotOffset(entry, c), RootEntry(entry, c),
                    s, s + entry);
  }

  lemma SourceWindow(table: Bytes, entry: nat, c: Change, s: nat)
    requires SlotsFit(table, entry, c.layout) && s == EntrySpan(c.layout.source - 1, entry)
    ensures Row(NewArray(table, entry, c), entry, c.layout.source - 1) == NewArray(table, entry, c)[s..s + entry]
    ensures Row(table, entry, c.layout.source - 1) == table[s..s + entry]
    ensures NewArray(table, entry, c)
            == TwoSplices(table, EndOffset(entry, c), ToLe(c.newEnd, 8), SlotOffset(entry, c), RootEntry(entry, c))
  {
    hide Splice, TwoSplices, ToLe, RootEntry;
    SlotBounds(table, entry, c.layout);
    SlotsDisjoint(entry, c.layout.source - 1, c.layout.root - 1);
  }

  /** A row with its end field rewritten. */
  lemma SourceRowFields(row: Bytes, newEnd: nat, n: nat)
    requires |row| >= 128 && newEnd < 0x1_0000_0000_0000_0000
    ensures var r := Splice(row, 40, ToLe(newEnd, 8));
            && PartOf(r, n) == PartOf(row, n).(end := newEnd)
            && (Occupied(r) <==> Occupied(row))
            && (AllZero(r[128..]) <==> AllZero(row[128..]))
  {
    Pow256Values();
    var r := Splice(row, 40, ToLe(newEnd, 8));
    LeOfToLe(newEnd, 8);
    SpliceInside(row, 40, ToLe(newEnd, 8));
    assert r[0..16] == row[0..16] && r[..16] == row[..16];
    assert r[16..32] == row[16..32];
    assert r[32..40] == row[32..40];
    assert r[48..56] == row[48..56];
    assert r[128..] == row[128..];
  }

  /** The row a slot of the new array holds. */
  function NewRow(table: Bytes, entry: nat, c: Change, n: nat): Bytes
    requires Holds(table, entry, n + 1)
  {
    var row := Row(table, entry, n);
    if n + 1 == c.layout.root then RootEntry(entry, c)
    else if n + 1 == c.layout.source then Splice(row, 40, ToLe(c.newEnd, 8))
    else row
  }

  lemma NewRows(table: Bytes, entry: nat, c: Change, n: nat)
    requires SlotsFit(table, entry, c.layout) && Holds(table, entry, n + 1)
    ensures Row(NewArray(table, entry, c), entry, n) == NewRow(table, entry, c, n)
  {
    hide EntrySpan, NewArray, Row, Splice, ToLe, RootEntry;
    if n + 1 == c.layout.root {
      RootRow(table, entry, c);
    } else if n + 1 == c.layout.source {
      SourceRow(table, entry, c);
    } else {
      OtherRow(table, entry, c, n);
    }
  }

  /** What each slot of the new array holds. */
  lemma NewSlots(table: Bytes, entry: nat, c: Change, n: nat)
    requires SlotsFit(table, entry, c.layout) && ChangeFits(c) && Holds(table, entry, n + 1)
    ensures var row, new' := Row(table, entry, n), Row(NewArray(table, entry, c), entry, n);
            && (Occupied(new') <==> n + 1 == c.layout.root || Occupied(row))
            && PartOf(new', n) == (if n + 1 == c.layout.root then RootPart(c)
                                   else if n + 1 == c.layout.source then PartOf(row, n).(end := c.newEnd)
                                   else PartOf(row, n))
            && (AllZero(row[128..]) ==> AllZero(new'[128..]))
            && (n + 1 == c.layout.root ==> AllZero(new'[128..]))
  {
    NewRows(table, entry, c, n);
    if n + 1 == c.layout.root {
      RootEntryFields(entry, c);
      RootEntryShape(entry, c);
    } else if n + 1 == c.layout.source {
      SourceRowFields(Row(table, entry, n), c.newEnd, n);
    }
  }

  lemma NewExtensionsClear(table: Bytes, entry: nat, count: nat, c: Change)
    requires SlotsFit(table, entry, c.layout) && ChangeFits(c)
    requires Holds(table, entry, count) && ExtensionsClear(table, entry, count)
    ensures ExtensionsClear(NewArray(table, entry, c), entry, count)
  {
    forall n | 0 <= n < count
      ensures Occupied(Row(NewArray(table, entry, c), entry, n))
              ==> AllZero(Row(NewArray(table, entry, c), entry, n)[128..])
    {
      assert Holds(table, entry, n + 1);
      NewSlots(table, entry, c, n);
    }
  }

  /** One more row, if the root slot was free. */
  lemma {:induction false} NewEntriesLength(table: Bytes, entry: nat, n: nat, c: Change)
    requires SlotsFit(table, entry, c.layout) && ChangeFits(c) && Holds(table, entry, n)
    requires !Occupied(Row(table, entry, c.layout.root - 1))
    ensures |Entries(NewArray(table, entry, c), entry, n)|
            == |Entries(table, entry, n)| + (if c.layout.root <= n then 1 else 0)
  {
    hide Entries, NewArray, EntrySpan, Occupied, Row;
    if n == 0 {
      NoEntries(table, entry);
      NoEntries(NewArray(table, entry, c), entry);
    } else {
      NewEntriesStep(table, entry, n, c);
      NewEntriesLength(table, entry, n - 1, c);
    }
  }

  lemma NoEntries(table: Bytes, entry: nat)
    requires Holds(table, entry, 0)
    ensures Entries(table, entry, 0) == []
  {
  }

  lemma NewEntriesStep(table: Bytes, entry: nat, n: nat, c: Change)
    requires SlotsFit(table, entry, c.layout) && ChangeFits(c) && Holds(table, entry, n) && n > 0
    requires !Occupied(Row(table, entry, c.layout.root - 1))
    ensures Holds(table, entry, n - 1)
    ensures |Entries(NewArray(table, entry, c), entry, n)| - |Entries(NewArray(table, entry, c), entry, n - 1)|
            == |Entries(table, entry, n)| - |Entries(table, entry, n - 1)| + (if n == c.layout.root then 1 else 0)
  {
    hide Entries, NewArray, EntrySpan, Occupied, Row;
    EntriesStep(table, entry, n);
    EntriesStep(NewArray(table, entry, c), entry, n);
    NewOccupied(table, entry, c, n - 1);
  }

  lemma NewOccupied(table: Bytes, entry: nat, c: Change, n: nat)
    requires SlotsFit(table, entry, c.layout) && ChangeFits(c) && Holds(table, entry, n + 1)
    ensures Occupied(Row(NewArray(table, entry, c), entry, n)) <==>
              n + 1 == c.layout.root || Occupied(Row(table, entry, n))
  {
    hide NewArray, EntrySpan, Occupied, Row, PartOf, RootPart;
    NewSlots(table, entry, c, n);
  }

  lemma EntriesStep(table: Bytes, entry: nat, n: nat)
    requires Holds(table, entry, n) && n > 0
    ensures Holds(table, entry, n - 1)
    ensures |Entries(table, entry, n)|
            == |Entries(table, entry, n - 1)| + (if Occupied(Row(table, entry, n - 1)) then 1 else 0)
  {
  }

  /** Both copies of the array stay equal over the used slots. */
  lemma NewUsedAgree(a: Bytes, b: Bytes, entry: nat, count: nat, c: Change)
    requires SlotsFit(a, entry, c.layout) && SlotsFit(b, entry, c.layout)
    requires Holds(a, entry, count) && Holds(b, entry, count)
    requires c.layout.source <= count && c.layout.root <= count
    requires Used(a, entry, count) == Used(b, entry, count)
    ensures Used(NewArray(a, entry, c), entry, count) == Used(NewArray(b, entry, c), entry, count)
  {
    SlotBounds(Used(a, entry, count), entry, c.layout);
    NewUsed(a, entry, count, c);
    NewUsed(b, entry, count, c);
  }

  lemma NewUsed(a: Bytes, entry: nat, count: nat, c: Change)
    requires SlotsFit(a, entry, c.layout) && Holds(a, entry, count)
    requires c.layout.source <= count && c.layout.root <= count
    ensures SlotsFit(Used(a, entry, count), entry, c.layout)
    ensures Used(NewArray(a, entry, c), entry, count) == NewArray(Used(a, entry, count), entry, c)
  {
  }

  // The preservation proof ignores exactly what was changed

  lemma NewHeaderMasked(o: Oracles, raw: Bytes, tableCrc: nat)
    requires |raw| >= 512 && 92 <= U32(raw, 12) <= |raw|
    ensures MaskHeader(NewHeader(o, raw, tableCrc)) == MaskHeader(raw)
  {
  }

  lemma NewArrayMasked(table: Bytes, entry: nat, c: Change)
    requires SlotsFit(table, entry, c.layout)
    ensures MaskArray(NewArray(table, entry, c), entry, c.layout) == MaskArray(table, entry, c.layout)
  {
    SlotsDisjoint(entry, c.layout.root - 1, c.layout.source - 1);
    MaskedArraysAgree(NewArray(table, entry, c), table, entry, c.layout);
    assert ArraysAgree(NewArray(table, entry, c), table, entry, c.layout);
  }

  lemma NewShape(o: Oracles, m: Metadata, sector: int, c: Change)
    requires Patchable(m, sector, c)
    ensures MaskFits(NewMetadata(o, m, sector, c), sector, c.layout)
    ensures ArrayFits(NewMetadata(o, m, sector, c), sector)
    ensures EntryBytes(NewMetadata(o, m, sector, c)) == EntryBytes(m)
    ensures EntryCount(NewMetadata(o, m, sector, c)) == EntryCount(m)
  {
    var entry, count := EntryBytes(m), EntryCount(m);
    NewHeaderFields(o, m.ph, o.Crc(Used(NewArray(m.pa, entry, c), entry, count)));
    NewHeaderFields(o, m.bh, o.Crc(Used(NewArray(m.ba, entry, c), entry, count)));
  }

  /** The digest input is unchanged by the update. */
  lemma NewPreimage(o: Oracles, m: Metadata, device: Device, sector: int, c: Change)
    requires Patchable(m, sector, c) && device.size >= 0
    ensures MaskFits(NewMetadata(o, m, sector, c), sector, c.layout)
    ensures ProofPreimage(NewMetadata(o, m, sector, c), device, sector, c.layout)
            == ProofPreimage(m, device, sector, c.layout)
  {
    NewShape(o, m, sector, c);
    var entry, count := EntryBytes(m), EntryCount(m);
    var pc, bc := o.Crc(Used(NewArray(m.pa, entry, c), entry, count)),
        o.Crc(Used(NewArray(m.ba, entry, c), entry, count));
    NewHeaderMasked(o, m.ph, pc);
    NewHeaderMasked(o, m.bh, bc);
    NewHeaderFields(o, m.ph, pc);
    NewHeaderFields(o, m.bh, bc);
    NewArrayMasked(m.pa, entry, c);
    NewArrayMasked(m.ba, entry, c);
  }
}
