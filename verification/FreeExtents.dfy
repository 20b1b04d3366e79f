/** Free space between partitions, and MiB alignment. */
module FreeExtents {
  import opened Gpt

  datatype Extent = Extent(start: int, end: int)

  // Alignment

  function Align(sector: int): (a: int)
    requires SectorOk(sector)
    ensures AlignOk(a)
  {
    if sector == 512 then 2048 else 256
  }

  predicate AlignOk(a: int) {
    a == 256 || a == 2048
  }

  predicate Aligned(x: int, a: int)
    requires AlignOk(a)
  {
    if a == 256 then x / 256 * 256 == x else x / 2048 * 2048 == x
  }

  /** The last multiple of `a` that is not above x. */
  function Down(x: int, a: int): int
    requires AlignOk(a)
  {
    if a == 256 then x / 256 * 256 else x / 2048 * 2048
  }

  /** The first multiple of `a` that is not below x. */
  function Up(x: int, a: int): int
    requires AlignOk(a)
  {
    Down(x + a - 1, a)
  }

  /** The case splits above are the quotients of the program. */
  lemma AlignmentArithmetic(x: int, sector: int)
    requires SectorOk(sector)
    ensures var a := Align(sector);
            && a == MIB / sector
            && (Aligned(x, a) <==> x % a == 0)
            && Down(x, a) == x / a * a
            && Up(x, a) == (x + a - 1) / a * a
  {
  }

  lemma DownIsGreatest(x: int, a: int, m: int)
    requires AlignOk(a)
    ensures Down(x, a) <= x < Down(x, a) + a && Aligned(Down(x, a), a)
    ensures Aligned(m, a) && m <= x ==> m <= Down(x, a)
  {
    if a == 256 {
      Quotient(x, m / 256, 256);
    } else {
      Quotient(x, m / 2048, 2048);
    }
  }

  lemma Quotient(x: int, k: int, a: int)
    requires AlignOk(a)
    ensures Down(x, a) <= x < Down(x, a) + a && Aligned(Down(x, a), a)
    ensures a == 256 && k * 256 <= x ==> k * 256 <= Down(x, a)
    ensures a == 2048 && k * 2048 <= x ==> k * 2048 <= Down(x, a)
  {
    if a == 256 {
      QuotientOf256(x, k);
    } else {
      QuotientOf2048(x, k);
    }
  }

  lemma QuotientOf256(x: int, k: int)
    ensures x / 256 * 256 <= x < x / 256 * 256 + 256 && (x / 256 * 256) % 256 == 0
    ensures k * 256 <= x ==> k * 256 <= x / 256 * 256
  {
    var q := x / 256;
    assert k > q ==> k * 256 >= q * 256 + 256;
  }

  lemma QuotientOf2048(x: int, k: int)
    ensures x / 2048 * 2048 <= x < x / 2048 * 2048 + 2048 && (x / 2048 * 2048) % 2048 == 0
    ensures k * 2048 <= x ==> k * 2048 <= x / 2048 * 2048
  {
    var q := x / 2048;
    assert k > q ==> k * 2048 >= q * 2048 + 2048;
  }

  lemma MultiplesApart(m: int, n: int, a: int)
    requires AlignOk(a) && Aligned(m, a) && Aligned(n, a) && m < n
    ensures m + a <= n
  {
  }

  lemma UpIsLeast(x: int, a: int, m: int)
    requires AlignOk(a)
    ensures x <= Up(x, a) < x + a && Aligned(Up(x, a), a)
    ensures Aligned(m, a) && x <= m ==> Up(x, a) <= m
  {
    DownIsGreatest(x + a - 1, a, m);
    var up := Up(x, a);
    if Aligned(m, a) && x <= m && m < up {
      MultiplesApart(m, up, a);
    }
  }

  lemma MultiplesAdd(m: int, n: int, a: int)
    requires AlignOk(a) && Aligned(m, a) && Aligned(n, a)
    ensures Aligned(m + n, a) && Aligned(m - n, a)
  {
    if a == 256 {
      Sums(m / 256, n / 256, 256);
    } else {
      Sums(m / 2048, n / 2048, 2048);
    }
  }

  lemma Sums(i: int, j: int, a: int)
    requires AlignOk(a)
    ensures Aligned(i * a + j * a, a) && Aligned(i * a - j * a, a)
  {
    if a == 256 {
      assert (i + j) * 256 / 256 == i + j && (i - j) * 256 / 256 == i - j;
    } else {
      assert (i + j) * 2048 / 2048 == i + j && (i - j) * 2048 / 2048 == i - j;
    }
  }

  // Gaps

  /** The program's cursor loop, as a function of the cursor and the rows ahead. */
  function GapsFrom(cursor: int, parts: seq<Part>, last: int): seq<Extent>
    decreases |parts|
  {
    if parts == [] then
      if cursor <= last then [Extent(cursor, last)] else []
    else
      (if cursor < parts[0].start then [Extent(cursor, parts[0].start - 1)] else [])
      + GapsFrom(parts[0].end + 1, parts[1..], last)
  }

  function GapsOf(s: Snapshot): seq<Extent> {
    GapsFrom(s.first, s.parts, s.last)
  }

  /** The loop shared by the three planners. */
  method FindGaps(s: Snapshot) returns (gaps: seq<Extent>)
    ensures gaps == GapsOf(s)
  {
    gaps := [];
    var cursor := s.first;
    for n := 0 to |s.parts|
      invariant gaps + GapsFrom(cursor, s.parts[n..], s.last) == GapsOf(s)
    {
      var part := s.parts[n];
      assert s.parts[n..][1..] == s.parts[n + 1..];
      ghost var rest := GapsFrom(part.end + 1, s.parts[n + 1..], s.last);
      ghost var before := gaps;
      if cursor < part.start {
        gaps := gaps + [Extent(cursor, part.start - 1)];
        assert gaps + rest == before + ([Extent(cursor, part.start - 1)] + rest);
      } else {
        assert [] + rest == rest;
      }
      cursor := part.end + 1;
    }
    if cursor <= s.last {
      gaps := gaps + [Extent(cursor, s.last)];
    }
  }

  predicate Within(p: Part, x: int) {
    p.start <= x <= p.end
  }

  /** Sector x is usable and belongs to no partition. */
  ghost predicate Free(first: int, last: int, parts: seq<Part>, x: int) {
    first <= x <= last && forall p :: p in parts ==> !Within(p, x)
  }

  ghost predicate FreeRange(s: Snapshot, start: int, end: int) {
    forall x :: start <= x <= end ==> Free(s.first, s.last, s.parts, x)
  }

  /** A nonempty run of free sectors that cannot be extended on either side. */
  ghost predicate MaximalGap(first: int, last: int, parts: seq<Part>, g: Extent) {
    && g.start <= g.end
    && (forall x :: g.start <= x <= g.end ==> Free(first, last, parts, x))
    && !Free(first, last, parts, g.start - 1)
    && !Free(first, last, parts, g.end + 1)
  }

  /** Rows in ascending extents between the cursor and the last usable sector. */
  ghost predicate Laid(cursor: int, parts: seq<Part>, last: int) {
    Ascending(parts) && forall p :: p in parts ==> cursor <= p.start <= p.end <= last
  }

  lemma LaidTail(cursor: int, parts: seq<Part>, last: int)
    requires Laid(cursor, parts, last) && parts != []
    ensures Laid(parts[0].end + 1, parts[1..], last)
    ensures forall x :: Free(cursor, last, parts, x) <==>
              cursor <= x < parts[0].start || Free(parts[0].end + 1, last, parts[1..], x)
  {
    var head, tail := parts[0], parts[1..];
    assert parts == [head] + tail;
    assert forall p :: p in tail ==> head.end < p.start;
    forall x ensures Free(cursor, last, parts, x) <==> cursor <= x < head.start || Free(head.end + 1, last, tail, x) {
      if Free(cursor, last, parts, x) {
        assert !Within(head, x);
      }
    }
  }

  /** A maximal gap is the one before the first row, or one behind it. */
  lemma MaximalSplit(cursor: int, parts: seq<Part>, last: int, g: Extent)
    requires Laid(cursor, parts, last) && parts != []
    requires MaximalGap(cursor, last, parts, g)
    ensures (cursor < parts[0].start && g == Extent(cursor, parts[0].start - 1))
            || MaximalGap(parts[0].end + 1, last, parts[1..], g)
  {
    LaidTail(cursor, parts, last);
    var p, tail := parts[0], parts[1..];
    assert p in parts && Within(p, p.start);
    assert !Free(cursor, last, parts, p.start);
    assert Free(cursor, last, parts, g.start) && Free(cursor, last, parts, g.end);
    if g.start < p.start {
      assert g.start <= p.start <= g.end ==> Free(cursor, last, parts, p.start);
      assert !Free(cursor, last, parts, g.start - 1) && !Free(cursor, last, parts, g.end + 1);
    } else {
      var behind := p.end + 1;
      forall x ensures g.start <= x <= g.end ==> Free(behind, last, tail, x) {
        assert g.start <= x <= g.end ==> Free(cursor, last, parts, x);
      }
      assert !Free(p.end + 1, last, tail, g.start - 1) && !Free(p.end + 1, last, tail, g.end + 1);
    }
  }

  lemma HeadGapIsMaximal(cursor: int, parts: seq<Part>, last: int)
    requires Laid(cursor, parts, last) && parts != [] && cursor < parts[0].start
    ensures MaximalGap(cursor, last, parts, Extent(cursor, parts[0].start - 1))
  {
    var head := parts[0];
    assert head in parts && Within(head, head.start);
    assert forall p :: p in parts ==> head.start <= p.start;
  }

  lemma TailGapIsMaximal(cursor: int, parts: seq<Part>, last: int, g: Extent)
    requires Laid(cursor, parts, last) && parts != []
    requires MaximalGap(parts[0].end + 1, last, parts[1..], g)
    ensures MaximalGap(cursor, last, parts, g)
  {
    LaidTail(cursor, parts, last);
    var p, tail := parts[0], parts[1..];
    assert p in parts && Within(p, p.end);
    assert !Free(cursor, last, parts, p.end);
    assert Free(p.end + 1, last, tail, g.start);
  }

  /** The loop lists exactly the maximal free extents. */
  lemma {:induction false} GapsAreMaximal(cursor: int, parts: seq<Part>, last: int, g: Extent)
    requires Laid(cursor, parts, last)
    ensures g in GapsFrom(cursor, parts, last) <==> MaximalGap(cursor, last, parts, g)
    decreases |parts|
  {
    if parts == [] {
      if MaximalGap(cursor, last, parts, g) {
        assert Free(cursor, last, parts, g.start) && Free(cursor, last, parts, g.end);
      }
    } else {
      var p, tail := parts[0], parts[1..];
      LaidTail(cursor, parts, last);
      GapsAreMaximal(p.end + 1, tail, last, g);
      if MaximalGap(cursor, last, parts, g) {
        MaximalSplit(cursor, parts, last, g);
      }
      if g in GapsFrom(p.end + 1, tail, last) {
        TailGapIsMaximal(cursor, parts, last, g);
      } else if g in GapsFrom(cursor, parts, last) {
        HeadGapIsMaximal(cursor, parts, last);
      }
    }
  }

  /** No free sector is missed. */
  lemma {:induction false} FreeSectorHasGap(cursor: int, parts: seq<Part>, last: int, x: int) returns (g: Extent)
    requires Laid(cursor, parts, last) && Free(cursor, last, parts, x)
    ensures g in GapsFrom(cursor, parts, last) && g.start <= x <= g.end
    decreases |parts|
  {
    if parts == [] {
      g := Extent(cursor, last);
    } else {
      LaidTail(cursor, parts, last);
      if x < parts[0].start {
        g := Extent(cursor, parts[0].start - 1);
      } else {
        g := FreeSectorHasGap(parts[0].end + 1, parts[1..], last, x);
      }
    }
  }

  function PartSectors(parts: seq<Part>): int {
    if parts == [] then 0 else parts[0].end - parts[0].start + 1 + PartSectors(parts[1..])
  }

  function GapSectors(gaps: seq<Extent>): int {
    if gaps == [] then 0 else gaps[0].end - gaps[0].start + 1 + GapSectors(gaps[1..])
  }

  /** Partitions and gaps together account for every usable sector. */
  lemma {:induction false} Tiling(cursor: int, parts: seq<Part>, last: int)
    requires Laid(cursor, parts, last) && cursor <= last + 1
    ensures PartSectors(parts) + GapSectors(GapsFrom(cursor, parts, last)) == last + 1 - cursor
    decreases |parts|
  {
    if parts != [] {
      LaidTail(cursor, parts, last);
      assert parts[0] in parts;
      Tiling(parts[0].end + 1, parts[1..], last);
      var rest := GapsFrom(parts[0].end + 1, parts[1..], last);
      if cursor < parts[0].start {
        assert ([Extent(cursor, parts[0].start - 1)] + rest)[1..] == rest;
      } else {
        assert [] + rest == rest;
      }
    }
  }

  /** A normal inventory is laid out as the gap loop assumes. */
  lemma NormalIsLaid(o: Oracles, s: Snapshot)
    requires Normal(o, s)
    ensures Laid(s.first, s.parts, s.last)
  {
  }

  /** Room for n aligned sectors inside a gap, as the program computes it. */
  function Room(g: Extent, a: int): int
    requires AlignOk(a)
  {
    Down(g.end + 1, a) - Up(g.start, a)
  }

  /** An aligned free run lies in a listed gap with room for it. */
  lemma FreeRunHasRoom(s: Snapshot, a: int, n: int, r: int) returns (g: Extent)
    requires Laid(s.first, s.parts, s.last) && AlignOk(a) && n > 0 && Aligned(n, a)
    requires Aligned(r, a) && FreeRange(s, r, r + n - 1)
    ensures g in GapsOf(s) && Room(g, a) >= n
  {
    assert Free(s.first, s.last, s.parts, r);
    g := FreeSectorHasGap(s.first, s.parts, s.last, r);
    GapsAreMaximal(s.first, s.parts, s.last, g);
    assert r <= g.end + 1 <= r + n - 1 ==> Free(s.first, s.last, s.parts, g.end + 1);
    UpIsLeast(g.start, a, r);
    MultiplesAdd(r, n, a);
    DownIsGreatest(g.end + 1, a, r + n);
  }

  /** A gap with room holds an aligned free run. */
  lemma RoomHoldsFreeRun(s: Snapshot, a: int, n: int, g: Extent)
    requires Laid(s.first, s.parts, s.last) && AlignOk(a) && n > 0
    requires g in GapsOf(s) && Room(g, a) >= n
    ensures Aligned(Up(g.start, a), a)
    ensures FreeRange(s, Up(g.start, a), Up(g.start, a) + n - 1)
  {
    GapsAreMaximal(s.first, s.parts, s.last, g);
    UpIsLeast(g.start, a, g.start);
    DownIsGreatest(g.end + 1, a, g.start);
  }

  /** Aligned room: a run of n sectors starting at a multiple of `a` is free
      exactly when some listed gap has that much room between its aligned ends. */
  lemma AlignedRoom(s: Snapshot, a: int, n: int)
    requires Laid(s.first, s.parts, s.last) && AlignOk(a) && n > 0 && Aligned(n, a)
    ensures (exists r :: Aligned(r, a) && FreeRange(s, r, r + n - 1))
            <==> exists g :: g in GapsOf(s) && Room(g, a) >= n
  {
    if exists r :: Aligned(r, a) && FreeRange(s, r, r + n - 1) {
      var r :| Aligned(r, a) && FreeRange(s, r, r + n - 1);
      var g := FreeRunHasRoom(s, a, n, r);
    }
    if exists g :: g in GapsOf(s) && Room(g, a) >= n {
      var g :| g in GapsOf(s) && Room(g, a) >= n;
      RoomHoldsFreeRun(s, a, n, g);
    }
  }
}
