/** The masked preservation proof: a digest over the whole table with only the
    source's end field, one root slot and the CRC fields blanked. */
module Preservation {
  import opened Bytes
  import opened Gpt
  import opened GptReader
  import opened ShrinkPlan

  datatype Layout = Layout(source: int, root: int)

  datatype Observation = Observation(snapshot: Snapshot, proof: Digest)

  predicate LayoutOk(layout: Layout, count: int) {
    1 <= layout.source <= count && 1 <= layout.root <= count && layout.source != layout.root
  }

  /** The source is plain NTFS data; the root slot is unused or plain Linux data. */
  predicate BindingOk(parts: seq<Part>, layout: Layout) {
    var source, root := Find(parts, layout.source), Find(parts, layout.root);
    && source.Some? && source.value.typeGuid == BASIC_DATA && source.value.attributes == 0
    && (root.Some? ==> root.value.typeGuid == LINUX_DATA && root.value.attributes == 0)
  }

  function MaskHeader(raw: Bytes): (r: Bytes)
    requires |raw| >= 92
    ensures |r| == |raw|
  {
    Splice(Splice(raw, 16, Zeros(4)), 88, Zeros(4))
  }

  /** Both slots lie inside the entry array. */
  predicate SlotsFit(table: Bytes, entry: nat, layout: Layout) {
    && layout.source != layout.root
    && 1 <= layout.source && Holds(table, entry, layout.source)
    && 1 <= layout.root && Holds(table, entry, layout.root)
  }

  lemma SlotBounds(table: Bytes, entry: nat, layout: Layout)
    requires SlotsFit(table, entry, layout)
    ensures 0 <= EntrySpan(layout.source - 1, entry) && EntrySpan(layout.source - 1, entry) + 48 <= |table|
    ensures 0 <= EntrySpan(layout.root - 1, entry) && EntrySpan(layout.root - 1, entry) + entry <= |table|
  {
  }

  function MaskArray(table: Bytes, entry: nat, layout: Layout): (r: Bytes)
    requires SlotsFit(table, entry, layout)
    ensures |r| == |table|
  {
    Splice(Splice(table, EntrySpan(layout.source - 1, entry) + 40, Zeros(8)),
           EntrySpan(layout.root - 1, entry), Zeros(entry))
  }

  predicate MaskFits(m: Metadata, sector: int, layout: Layout) {
    && Shaped(m, sector)
    && SlotsFit(m.pa, EntryBytes(m), layout) && SlotsFit(m.ba, EntryBytes(m), layout)
  }

  function Masked(m: Metadata, sector: int, layout: Layout): Metadata
    requires MaskFits(m, sector, layout)
  {
    Metadata(m.mbr, MaskHeader(m.ph), MaskArray(m.pa, EntryBytes(m), layout),
             MaskArray(m.ba, EntryBytes(m), layout), MaskHeader(m.bh))
  }

  /** Blank n bytes of a buffer in place. */
  method ZeroFill(raw: array<byte>, off: nat, n: nat)
    requires off + n <= raw.Length
    modifies raw
    ensures raw[..] == Splice(old(raw[..]), off, Zeros(n))
  {
    for i := 0 to n
      invariant forall k :: 0 <= k < raw.Length ==> raw[k] == if off <= k < off + i then 0 else old(raw[k])
    {
      raw[off + i] := 0;
    }
  }

  method MaskHeaderInPlace(raw: array<byte>)
    requires raw.Length >= 92
    modifies raw
    ensures raw[..] == MaskHeader(old(raw[..]))
  {
    ZeroFill(raw, 16, 4);
    ZeroFill(raw, 88, 4);
  }

  method MaskArrayInPlace(table: array<byte>, entry: nat, layout: Layout)
    requires SlotsFit(table[..], entry, layout)
    modifies table
    ensures table[..] == MaskArray(old(table[..]), entry, layout)
  {
    var endOffset, slotOffset := EntrySpan(layout.source - 1, entry) + 40, EntrySpan(layout.root - 1, entry);
    SlotBounds(table[..], entry, layout);
    ZeroFill(table, endOffset, 8);
    ZeroFill(table, slotOffset, entry);
  }

  function ProofHeader(m: Metadata, device: Device, sector: int, layout: Layout): Bytes
    requires Shaped(m, sector) && device.size >= 0 && layout.source >= 0 && layout.root >= 0
  {
    ToLe(device.size, 8) + (ToLe(sector, 8) + (ToLe(U64(m.ph, 72), 8) + (ToLe(U64(m.bh, 72), 8)
    + (ToLe(layout.source, 4) + ToLe(layout.root, 4)))))
  }

  /** The bytes fed to the preservation digest. */
  function ProofPreimage(m: Metadata, device: Device, sector: int, layout: Layout): Bytes
    requires MaskFits(m, sector, layout) && device.size >= 0
  {
    Text("ro-gpt-ntfs-tail-preservation-v1") + [0]
    + ProofHeader(m, device, sector, layout) + FrameAll(Masked(m, sector, layout))
  }

  lemma LayoutFits(o: Oracles, m: Metadata, device: Device, sector: int, layout: Layout)
    requires Shaped(m, sector) && Decode(o, m, device, sector).Some?
    requires LayoutOk(layout, Decode(o, m, device, sector).value.count)
    ensures MaskFits(m, sector, layout)
  {
  }

  /** `read_snapshot` with an NTFS layout, from the bytes it read. */
  ghost function Observe(o: Oracles, m: Metadata, device: Device, sector: int, layout: Layout): Option<Observation>
    requires Shaped(m, sector)
  {
    var snapshot := Decode(o, m, device, sector);
    if snapshot.None? || !LayoutOk(layout, snapshot.value.count) || !BindingOk(snapshot.value.parts, layout)
    then None
    else
      LayoutFits(o, m, device, sector, layout);
      Some(Observation(snapshot.value, o.sha(ProofPreimage(m, device, sector, layout))))
  }

  /** Some row of that number is of the type and has no attributes. */
  ghost predicate PlainRow(parts: seq<Part>, number: int, typeGuid: Guid) {
    exists i ::
      0 <= i < |parts| && parts[i].number == number && parts[i].typeGuid == typeGuid && parts[i].attributes == 0
  }

  /** A readable table is observed precisely if both slots exist and differ, the source is a plain
      row of basic data, and the root slot is unused or holds a plain Linux row. */
  lemma ObservedExactly(o: Oracles, m: Metadata, device: Device, sector: int, layout: Layout)
    requires Shaped(m, sector) && Decode(o, m, device, sector).Some?
    ensures var s := Decode(o, m, device, sector).value;
            Observe(o, m, device, sector, layout).Some? <==>
              && 1 <= layout.source <= s.count && 1 <= layout.root <= s.count && layout.source != layout.root
              && PlainRow(s.parts, layout.source, BASIC_DATA)
              && (PlainRow(s.parts, layout.root, LINUX_DATA) || forall p :: p in s.parts ==> p.number != layout.root)
  {
    hide Decode, ProofPreimage, GeometryOk, DeviceOk, Ascending, BindingOk, PlainRow;
    BoundExactly(Decode(o, m, device, sector).value.parts, layout);
  }

  lemma BoundExactly(parts: seq<Part>, layout: Layout)
    requires PairwiseCompatible(parts)
    ensures BindingOk(parts, layout) <==>
              && PlainRow(parts, layout.source, BASIC_DATA)
              && (PlainRow(parts, layout.root, LINUX_DATA) || forall p :: p in parts ==> p.number != layout.root)
  {
    FoundRow(parts, layout.source, BASIC_DATA);
    FoundRow(parts, layout.root, LINUX_DATA);
  }

  lemma FoundRow(parts: seq<Part>, number: int, typeGuid: Guid)
    requires PairwiseCompatible(parts)
    ensures var p := Find(parts, number);
            PlainRow(parts, number, typeGuid) <==> p.Some? && p.value.typeGuid == typeGuid && p.value.attributes == 0
  {
    NumbersDiffer(parts);
    var p := Find(parts, number);
    if p.Some? {
      var i :| 0 <= i < |parts| && parts[i] == p.value;
      assert forall j :: 0 <= j < |parts| && parts[j].number == number ==> j == i;
    }
  }

  lemma NumbersDiffer(parts: seq<Part>)
    requires PairwiseCompatible(parts)
    ensures forall i, j :: 0 <= i < |parts| && 0 <= j < |parts| && parts[i].number == parts[j].number ==> i == j
  {
    forall i, j | 0 <= i < j < |parts| ensures parts[i].number != parts[j].number {
      assert Compatible(parts[i], parts[j]);
    }
  }

  ghost function ReadNtfs(o: Oracles, read: Reader, device: Device, sector: int, layout: Layout): Option<Observation> {
    if !SectorOk(sector) then None
    else
      var m := ReadMetadata(read, device, sector);
      if m.None? then None else Observe(o, m.value, device, sector, layout)
  }

  // The framing is injective

  /** A length prefix makes concatenation uniquely readable. */
  lemma FrameSplits(a: Bytes, b: Bytes, x: Bytes, y: Bytes)
    requires |a| < 0x1_0000_0000_0000_0000 && |b| < 0x1_0000_0000_0000_0000
    requires Frame(a) + x == Frame(b) + y
    ensures a == b && x == y
  {
    var l, r := Frame(a) + x, Frame(b) + y;
    Pow256Values();
    assert l[..8] == ToLe(|a|, 8) && r[..8] == ToLe(|b|, 8);
    ToLeInjective(|a|, |b|, 8);
    assert l[8..8 + |a|] == a && r[8..8 + |b|] == b;
    assert l[8 + |a|..] == x && r[8 + |b|..] == y;
  }

  predicate Framable(m: Metadata) {
    && |m.mbr| < 0x1_0000_0000_0000_0000 && |m.ph| < 0x1_0000_0000_0000_0000
    && |m.pa| < 0x1_0000_0000_0000_0000 && |m.ba| < 0x1_0000_0000_0000_0000
    && |m.bh| < 0x1_0000_0000_0000_0000
  }

  lemma FramingInjective(m: Metadata, n: Metadata)
    requires Framable(m) && Framable(n)
    requires FrameAll(m) == FrameAll(n)
    ensures m == n
  {
    var m4, n4 := Frame(m.bh), Frame(n.bh);
    var m3, n3 := Frame(m.ba) + m4, Frame(n.ba) + n4;
    var m2, n2 := Frame(m.pa) + m3, Frame(n.pa) + n3;
    var m1, n1 := Frame(m.ph) + m2, Frame(n.ph) + n2;
    FrameSplits(m.mbr, n.mbr, m1, n1);
    FrameSplits(m.ph, n.ph, m2, n2);
    FrameSplits(m.pa, n.pa, m3, n3);
    FrameSplits(m.ba, n.ba, m4, n4);
    assert m4 + [] == m4 && n4 + [] == n4;
    FrameSplits(m.bh, n.bh, [], []);
  }

  /** A fixed-width field, then the rest. */
  lemma FieldSplits(v: nat, w: nat, n: nat, x: Bytes, y: Bytes)
    requires v < Pow256(n) && w < Pow256(n)
    requires ToLe(v, n) + x == ToLe(w, n) + y
    ensures v == w && x == y
  {
    var l, r := ToLe(v, n) + x, ToLe(w, n) + y;
    assert l[..n] == ToLe(v, n) && r[..n] == ToLe(w, n);
    assert l[n..] == x && r[n..] == y;
    ToLeInjective(v, w, n);
  }

  lemma ShapedIsFramable(m: Metadata, sector: int)
    requires Shaped(m, sector)
    ensures Framable(m)
  {
  }

  /** Equal digest inputs mean equal device size, sector, placement, slots and masked bytes. */
  lemma ProofInjective(m: Metadata, n: Metadata, d: Device, e: Device, s: int, t: int, k: Layout, l: Layout)
    requires MaskFits(m, s, k) && MaskFits(n, t, l)
    requires 0 <= d.size <= MAX_BYTES && 0 <= e.size <= MAX_BYTES
    requires k.source <= 4096 && k.root <= 4096 && l.source <= 4096 && l.root <= 4096
    requires ProofPreimage(m, d, s, k) == ProofPreimage(n, e, t, l)
    ensures d.size == e.size && s == t && k == l
    ensures U64(m.ph, 72) == U64(n.ph, 72) && U64(m.bh, 72) == U64(n.bh, 72)
    ensures Masked(m, s, k) == Masked(n, t, l)
  {
    Pow256Values();
    var tag := Text("ro-gpt-ntfs-tail-preservation-v1") + [0];
    var fm, fn := FrameAll(Masked(m, s, k)), FrameAll(Masked(n, t, l));
    var hm, hn := ProofHeader(m, d, s, k), ProofHeader(n, e, t, l);
    assert ProofPreimage(m, d, s, k)[|tag|..|tag| + 40] == hm;
    assert ProofPreimage(n, e, t, l)[|tag|..|tag| + 40] == hn;
    assert ProofPreimage(m, d, s, k)[|tag| + 40..] == fm;
    assert ProofPreimage(n, e, t, l)[|tag| + 40..] == fn;
    HeaderFieldsInjective(m, n, d, e, s, t, k, l);
    ShapedIsFramable(m, s);
    ShapedIsFramable(n, t);
    FramingInjective(Masked(m, s, k), Masked(n, t, l));
  }

  lemma HeaderFieldsInjective(m: Metadata, n: Metadata, d: Device, e: Device, s: int, t: int, k: Layout, l: Layout)
    requires Shaped(m, s) && Shaped(n, t)
    requires 0 <= d.size <= MAX_BYTES && 0 <= e.size <= MAX_BYTES
    requires 0 <= k.source <= 4096 && 0 <= k.root <= 4096 && 0 <= l.source <= 4096 && 0 <= l.root <= 4096
    requires ProofHeader(m, d, s, k) == ProofHeader(n, e, t, l)
    ensures d.size == e.size && s == t && k == l
    ensures U64(m.ph, 72) == U64(n.ph, 72) && U64(m.bh, 72) == U64(n.bh, 72)
  {
    Pow256Values();
    var m5, n5 := ToLe(k.root, 4), ToLe(l.root, 4);
    var m4, n4 := ToLe(k.source, 4) + m5, ToLe(l.source, 4) + n5;
    var m3, n3 := ToLe(U64(m.bh, 72), 8) + m4, ToLe(U64(n.bh, 72), 8) + n4;
    var m2, n2 := ToLe(U64(m.ph, 72), 8) + m3, ToLe(U64(n.ph, 72), 8) + n3;
    var m1, n1 := ToLe(s, 8) + m2, ToLe(t, 8) + n2;
    FieldSplits(d.size, e.size, 8, m1, n1);
    FieldSplits(s, t, 8, m2, n2);
    FieldSplits(U64(m.ph, 72), U64(n.ph, 72), 8, m3, n3);
    FieldSplits(U64(m.bh, 72), U64(n.bh, 72), 8, m4, n4);
    FieldSplits(k.source, l.source, 4, m5, n5);
    ToLeInjective(k.root, l.root, 4);
  }

  // What an equal proof guarantees about the bytes

  /** Outside the two CRC fields the headers agree. */
  ghost predicate HeadersAgree(a: Bytes, b: Bytes) {
    |a| == |b| && forall i :: 0 <= i < |a| && !(16 <= i < 20) && !(88 <= i < 92) ==> a[i] == b[i]
  }

  /** Byte i of the array is the source's end field or in the root slot. */
  predicate MayDiffer(i: int, entry: int, layout: Layout)
    requires EntrySizeOk(entry)
  {
    || EntrySpan(layout.source - 1, entry) + 40 <= i < EntrySpan(layout.source - 1, entry) + 48
    || EntrySpan(layout.root - 1, entry) <= i < EntrySpan(layout.root, entry)
  }

  ghost predicate ArraysAgree(a: Bytes, b: Bytes, entry: int, layout: Layout)
    requires EntrySizeOk(entry)
  {
    |a| == |b| && forall i :: 0 <= i < |a| && !MayDiffer(i, entry, layout) ==> a[i] == b[i]
  }

  lemma MaskedHeadersAgree(a: Bytes, b: Bytes)
    requires |a| >= 92 && |b| >= 92
    ensures MaskHeader(a) == MaskHeader(b) <==> HeadersAgree(a, b)
  {
  }

  lemma MaskedArraysAgree(a: Bytes, b: Bytes, entry: nat, layout: Layout)
    requires SlotsFit(a, entry, layout) && SlotsFit(b, entry, layout)
    ensures MaskArray(a, entry, layout) == MaskArray(b, entry, layout) <==> ArraysAgree(a, b, entry, layout)
  {
  }

  /** No two inputs share a digest. */
  ghost predicate CollisionFree(o: Oracles) {
    forall x, y :: o.sha(x) == o.sha(y) ==> x == y
  }

  /** Soundness: two readable tables with the same proof agree on every byte of the
      protective MBR, both headers and both reserved arrays, except the source's eight
      end bytes, the root slot and the CRC fields. */
  lemma PreservationSound(o: Oracles, m: Metadata, n: Metadata, device: Device, sector: int, layout: Layout)
    requires CollisionFree(o)
    requires Shaped(m, sector) && Shaped(n, sector)
    requires Observe(o, m, device, sector, layout).Some? && Observe(o, n, device, sector, layout).Some?
    requires Observe(o, m, device, sector, layout).value.proof == Observe(o, n, device, sector, layout).value.proof
    ensures m.mbr == n.mbr
    ensures HeadersAgree(m.ph, n.ph) && HeadersAgree(m.bh, n.bh)
    ensures EntryBytes(m) == EntryBytes(n)
    ensures ArraysAgree(m.pa, n.pa, EntryBytes(m), layout) && ArraysAgree(m.ba, n.ba, EntryBytes(m), layout)
  {
    LayoutFits(o, m, device, sector, layout);
    LayoutFits(o, n, device, sector, layout);
    ProofsAgree(o, m, n, device, sector, layout);
    MaskedAgree(m, n, sector, layout);
  }

  lemma ProofsAgree(o: Oracles, m: Metadata, n: Metadata, device: Device, sector: int, layout: Layout)
    requires CollisionFree(o)
    requires MaskFits(m, sector, layout) && MaskFits(n, sector, layout)
    requires Observe(o, m, device, sector, layout).Some? && Observe(o, n, device, sector, layout).Some?
    requires Observe(o, m, device, sector, layout).value.proof == Observe(o, n, device, sector, layout).value.proof
    ensures Masked(m, sector, layout) == Masked(n, sector, layout)
  {
    ProofInjective(m, n, device, device, sector, sector, layout, layout);
  }

  lemma MaskedAgree(m: Metadata, n: Metadata, sector: int, layout: Layout)
    requires MaskFits(m, sector, layout) && MaskFits(n, sector, layout)
    requires Masked(m, sector, layout) == Masked(n, sector, layout)
    ensures m.mbr == n.mbr
    ensures HeadersAgree(m.ph, n.ph) && HeadersAgree(m.bh, n.bh)
    ensures EntryBytes(m) == EntryBytes(n)
    ensures ArraysAgree(m.pa, n.pa, EntryBytes(m), layout) && ArraysAgree(m.ba, n.ba, EntryBytes(m), layout)
  {
    MaskedHeadersAgree(m.ph, n.ph);
    MaskedHeadersAgree(m.bh, n.bh);
    assert m.ph[84..88] == n.ph[84..88];
    MaskedArraysAgree(m.pa, n.pa, EntryBytes(m), layout);
    MaskedArraysAgree(m.ba, n.ba, EntryBytes(m), layout);
  }

  /** In particular every other entry is byte-identical, names and padding included. */
  lemma OtherRowsIdentical(a: Bytes, b: Bytes, entry: nat, layout: Layout, n: nat)
    requires EntrySizeOk(entry) && ArraysAgree(a, b, entry, layout)
    requires Holds(a, entry, n + 1) && n + 1 != layout.source && n + 1 != layout.root
    ensures Holds(b, entry, n + 1) && Row(a, entry, n) == Row(b, entry, n)
  {
  }
}
