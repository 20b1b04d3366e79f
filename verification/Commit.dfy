/** The two-copy metadata commit: backup written and flushed before the primary is touched. */
module Commit {
  import opened Bytes
  import opened Gpt
  import opened Images
  import opened Disk
  import opened TableIo

  datatype CommitPhase = Prepare | Backup | Primary | Verify

  datatype CommitError = CommitError(phase: CommitPhase, writeStarted: bool, verifiedCopies: int)

  datatype CommitResult = Committed(snapshot: Snapshot) | CommitFailed(error: CommitError)

  /** A region and the bytes it must show on every read-back. */
  datatype Watch = Watch(offset: int, expected: Bytes)

  ghost predicate WatchesFit(size: int, view: seq<Watch>) {
    forall w :: w in view ==> 0 <= w.offset && w.offset + |w.expected| <= size
  }

  /** The image shows every region as expected. */
  ghost predicate Shows(img: Bytes, view: seq<Watch>) {
    forall w :: w in view ==> RegionShows(img, w)
  }

  ghost predicate RegionShows(img: Bytes, w: Watch) {
    && 0 <= w.offset && w.offset + |w.expected| <= |img|
    && img[w.offset..w.offset + |w.expected|] == w.expected
  }

  // What the trace shows

  /** Some event in the window is a read of the region that returned the expected bytes. */
  ghost predicate ReadBack(trace: seq<Event>, lo: int, hi: int, w: Watch)
    requires 0 <= lo <= hi <= |trace|
  {
    WasRead(trace, lo, hi, w.offset, w.expected)
  }

  ghost predicate AllReadBack(trace: seq<Event>, lo: int, hi: int, view: seq<Watch>)
    requires 0 <= lo <= hi <= |trace|
  {
    forall w :: w in view ==> ReadBack(trace, lo, hi, w)
  }

  /** Two whole passes over the regions, one after the other. */
  ghost predicate ReadTwice(trace: seq<Event>, lo: int, hi: int, view: seq<Watch>)
    requires 0 <= lo <= hi <= |trace|
  {
    exists mid :: lo <= mid <= hi && AllReadBack(trace, lo, mid, view) && AllReadBack(trace, mid, hi, view)
  }

  /** How many of the first n events are writes. */
  function WritesUpTo(trace: seq<Event>, n: nat): nat
    requires n <= |trace|
  {
    if n == 0 then 0 else WritesUpTo(trace, n - 1) + (if trace[n - 1].Write? then 1 else 0)
  }

  lemma {:induction false} WritesOfPrefix(a: seq<Event>, b: seq<Event>, n: nat)
    requires a <= b && n <= |a|
    ensures WritesUpTo(a, n) == WritesUpTo(b, n)
  {
    if n > 0 {
      WritesOfPrefix(a, b, n - 1);
    }
  }

  lemma {:induction false} WritesStay(trace: seq<Event>, lo: nat, hi: nat)
    requires lo <= hi <= |trace| && forall k :: lo <= k < hi ==> !trace[k].Write?
    ensures WritesUpTo(trace, hi) == WritesUpTo(trace, lo)
    decreases hi - lo
  {
    if lo < hi {
      WritesStay(trace, lo, hi - 1);
    }
  }

  /** A trace that grew without any write. */
  ghost predicate NoWrites(a: seq<Event>, b: seq<Event>) {
    a <= b && forall k :: |a| <= k < |b| ==> !b[k].Write?
  }

  lemma QuietWrites(a: seq<Event>, b: seq<Event>)
    requires NoWrites(a, b)
    ensures WritesUpTo(b, |b|) == WritesUpTo(a, |a|)
  {
    WritesStay(b, |a|, |b|);
    WritesOfPrefix(a, b, |a|);
  }

  function FullWrite(p: Patch): Event {
    Write(p.offset, p.replacement, |p.replacement|)
  }

  function AfterGroup(g: Group): seq<Watch> {
    [Watch(g.table.offset, g.table.replacement), Watch(g.header.offset, g.header.replacement)]
  }

  /** From event lo on: guard granted, every region read as expected, twice, and only then, as
      event c, a write. */
  ghost predicate Prechecked(trace: seq<Event>, lo: int, c: int, view: seq<Watch>) {
    && 0 <= lo < c < |trace| && trace[lo] == Guard(true) && trace[c].Write?
    && (forall k :: lo < k < c ==> trace[k].Read?) && ReadTwice(trace, lo, c, view)
  }

  /** Between lo and hi: array and header written in full, in that order, flushed, and read back. */
  ghost predicate GroupVerified(trace: seq<Event>, lo: int, hi: int, g: Group) {
    exists f :: FlushedAt(trace, lo, hi, g, f)
  }

  /** The same, with the flush at event f. */
  ghost predicate FlushedAt(trace: seq<Event>, lo: int, hi: int, g: Group, f: int) {
    && 0 <= lo <= f - 2 && f < hi <= |trace|
    && trace[f - 2] == FullWrite(g.table) && trace[f - 1] == FullWrite(g.header) && trace[f] == Flush(true)
    && ReadTwice(trace, f, hi, AfterGroup(g))
  }

  /** Facts about a window survive a longer trace. */
  lemma VerifiedInLonger(a: seq<Event>, b: seq<Event>, lo: int, hi: int, g: Group)
    requires a <= b && GroupVerified(a, lo, hi, g)
    ensures GroupVerified(b, lo, hi, g)
  {
    var f :| FlushedAt(a, lo, hi, g, f);
    ReadsGrow(a, b, f, hi, hi, AfterGroup(g));
    assert FlushedAt(b, lo, hi, g, f);
  }

  lemma PrecheckedInLonger(a: seq<Event>, b: seq<Event>, lo: int, c: int, view: seq<Watch>)
    requires a <= b && Prechecked(a, lo, c, view)
    ensures Prechecked(b, lo, c, view)
    ensures WritesUpTo(b, c) == WritesUpTo(b, lo)
  {
    ReadsGrow(a, b, lo, c, c, view);
    assert b[lo] == a[lo] && b[c] == a[c];
    WritesStay(b, lo, c);
  }

  /** Read-backs survive a longer trace and a wider window. */
  lemma ReadsGrow(a: seq<Event>, b: seq<Event>, lo: int, hi: int, wider: int, view: seq<Watch>)
    requires a <= b && 0 <= lo <= hi <= |a| && hi <= wider <= |b| && ReadTwice(a, lo, hi, view)
    ensures ReadTwice(b, lo, wider, view)
  {
    var mid :| lo <= mid <= hi && AllReadBack(a, lo, mid, view) && AllReadBack(a, mid, hi, view);
    PassGrows(a, b, lo, mid, mid, view);
    PassGrows(a, b, mid, hi, wider, view);
  }

  lemma PassGrows(a: seq<Event>, b: seq<Event>, lo: int, hi: int, wider: int, view: seq<Watch>)
    requires a <= b && 0 <= lo <= hi <= |a| && hi <= wider <= |b| && AllReadBack(a, lo, hi, view)
    ensures AllReadBack(b, lo, wider, view)
  {
    forall w | w in view ensures ReadBack(b, lo, wider, w) {
      assert ReadBack(a, lo, hi, w);
      var k :| lo <= k < hi && a[k] == Read(w.offset, w.expected);
      assert b[k] == a[k];
    }
  }

  /** The journal of one copy done completely. */
  function GroupJournal(g: Group): seq<Event> {
    [FullWrite(g.table), FullWrite(g.header), Flush(true)]
  }

  /** e is an attempt at f: the same write or flush, perhaps cut short. */
  predicate AttemptOf(e: Event, f: Event) {
    match f
    case Write(offset, data, _) => e.Write? && e.offset == offset && e.data == data && e.stored <= |data|
    case Flush(_) => e.Flush?
    case _ => e == f
  }

  /** All of j is done as planned except perhaps its last event, and nothing is out of order. */
  ghost predicate JournalPrefix(j: seq<Event>, full: seq<Event>) {
    && |j| <= |full|
    && (forall i :: 0 <= i < |j| ==> AttemptOf(j[i], full[i]))
    && (forall i :: 0 <= i < |j| - 1 ==> j[i] == full[i])
  }

  // The states a commit passes through

  predicate WithinGroup(w: Pending, g: Group) {
    || (w.offset == g.table.offset && |w.data| <= |g.table.replacement|)
    || (w.offset == g.header.offset && |w.data| <= |g.header.replacement|)
  }

  /** Durable contents d, with unflushed bytes of g only. */
  ghost predicate During(d: Bytes, g: Group, st: DiskState) {
    st.durable == d && forall w :: w in st.pending ==> WithinGroup(w, g)
  }

  /** The states of one group: none has its bytes durable but the last, after its flush. */
  ghost predicate GroupStates(d: Bytes, g: Group, states: seq<DiskState>, from: int)
    requires GroupFits(|d|, g)
  {
    forall i :: 0 <= from <= i < |states| ==>
      During(d, g, states[i]) || (i == |states| - 1 && states[i] == DiskState(ApplyGroup(d, g), []))
  }

  predicate GroupFits(size: int, g: Group) {
    && 0 <= g.table.offset && g.table.offset + |g.table.replacement| <= size
    && 0 <= g.header.offset && g.header.offset + |g.header.replacement| <= size
  }

  // One copy

  /** Two passes over the watched regions. */
  method CheckView(io: BlockDevice, view: seq<Watch>) returns (ok: bool)
    requires io.Valid() && WatchesFit(io.size, view)
    modifies io`trace, io`faults
    ensures io.Valid() && io.SameDisk() && OnlyReads(old(io.trace), io.trace)
    ensures old(io.faults) <= io.faults && (ok ==> io.faults == old(io.faults))
    ensures io.exclusive && io.faults == old(io.faults) ==> (ok <==> Shows(io.View(), view))
    ensures ok ==> ReadTwice(io.trace, |old(io.trace)|, |io.trace|, view)
  {
    ghost var lo, mid := |io.trace|, |io.trace|;
    for pass := 0 to 2
      invariant io.Valid() && io.SameDisk() && OnlyReads(old(io.trace), io.trace)
      invariant io.faults == old(io.faults)
      invariant pass > 0 && io.exclusive ==> Shows(io.View(), view)
      invariant lo <= mid <= |io.trace|
      invariant pass == 1 ==> mid == |io.trace|
      invariant pass >= 1 ==> AllReadBack(io.trace, lo, mid, view)
      invariant pass == 2 ==> AllReadBack(io.trace, mid, |io.trace|, view)
    {
      ghost var before := io.trace;
      var same := CheckPass(io, view);
      if !same {
        return false;
      }
      if pass == 0 {
        mid := |io.trace|;
      } else {
        PassGrows(before, io.trace, lo, mid, mid, view);
      }
    }
    return true;
  }

  /** One pass. */
  method CheckPass(io: BlockDevice, view: seq<Watch>) returns (ok: bool)
    requires io.Valid() && WatchesFit(io.size, view)
    modifies io`trace, io`faults
    ensures io.Valid() && io.SameDisk() && OnlyReads(old(io.trace), io.trace)
    ensures old(io.faults) <= io.faults && (ok ==> io.faults == old(io.faults))
    ensures io.exclusive && io.faults == old(io.faults) ==> (ok <==> Shows(io.View(), view))
    ensures ok ==> AllReadBack(io.trace, |old(io.trace)|, |io.trace|, view)
  {
    ghost var lo := |io.trace|;
    for n := 0 to |view|
      invariant io.Valid() && io.SameDisk() && OnlyReads(old(io.trace), io.trace)
      invariant io.faults == old(io.faults)
      invariant io.exclusive ==> forall k :: 0 <= k < n ==> RegionShows(io.View(), view[k])
      invariant forall k :: 0 <= k < n ==> ReadBack(io.trace, lo, |io.trace|, view[k])
    {
      ghost var before := io.trace;
      var actual := io.Pread(view[n].offset, |view[n].expected|);
      if actual != Some(view[n].expected) {
        assert io.exclusive && io.faults == old(io.faults) ==> !RegionShows(io.View(), view[n]);
        return false;
      }
      assert io.trace[|before|] == Read(view[n].offset, view[n].expected);
      forall k | 0 <= k < n ensures ReadBack(io.trace, lo, |io.trace|, view[k]) {
        WasReadGrows(before, io.trace, lo, |io.trace|, view[k].offset, view[k].expected);
      }
    }
    return true;
  }

  /** The dictionary update after a flush. */
  function Rewatch(view: seq<Watch>, p: Patch): seq<Watch> {
    seq(|view|, i requires 0 <= i < |view| =>
      if view[i].offset == p.offset && |view[i].expected| == |p.replacement|
      then Watch(p.offset, p.replacement) else view[i])
  }

  lemma RewatchLemma(view: seq<Watch>, p: Patch, size: int)
    requires WatchesFit(size, view)
    ensures WatchesFit(size, Rewatch(view, p))
    ensures forall w :: w in view && w.offset == p.offset && |w.expected| == |p.replacement| ==>
              Watch(p.offset, p.replacement) in Rewatch(view, p)
    ensures forall w :: w in view && w.offset != p.offset ==> w in Rewatch(view, p)
  {
    var after := Rewatch(view, p);
    forall w | w in view
      ensures w.offset == p.offset && |w.expected| == |p.replacement| ==> Watch(p.offset, p.replacement) in after
      ensures w.offset != p.offset ==> w in after
    {
      var i :| 0 <= i < |view| && view[i] == w;
      assert after[i] in after;
    }
  }

  /** Regions of the group are among those watched. */
  ghost predicate Watched(view: seq<Watch>, g: Group) {
    && g.table.offset != g.header.offset
    && Watch(g.table.offset, g.table.original) in view && |g.table.original| == |g.table.replacement|
    && Watch(g.header.offset, g.header.original) in view && |g.header.original| == |g.header.replacement|
  }

  function NextView(view: seq<Watch>, g: Group): seq<Watch> {
    Rewatch(Rewatch(view, g.table), g.header)
  }

  lemma NextViewLemma(view: seq<Watch>, g: Group, size: int)
    requires WatchesFit(size, view) && Watched(view, g)
    ensures WatchesFit(size, NextView(view, g))
    ensures forall w :: w in AfterGroup(g) ==> w in NextView(view, g)
    ensures forall w :: w in view && w.offset != g.table.offset && w.offset != g.header.offset ==>
              w in NextView(view, g)
  {
    RewatchLemma(view, g.table, size);
    RewatchLemma(Rewatch(view, g.table), g.header, size);
    assert Watch(g.table.offset, g.table.replacement) in Rewatch(view, g.table);
  }

  /** The two writes and the flush of one copy. */
  method WriteGroup(io: BlockDevice, g: Group) returns (ok: bool)
    requires io.Valid() && GroupFits(io.size, g)
    modifies io`durable, io`pending, io`trace, io`journal, io`states, io`faults
    ensures old(io.faults) <= io.faults && (ok <==> io.faults == old(io.faults))
    ensures io.Valid() && old(io.trace) <= io.trace && old(io.journal) < io.journal && old(io.states) <= io.states
    ensures |io.trace| > |old(io.trace)| && io.trace[|old(io.trace)|].Write?
    ensures JournalPrefix(io.journal[|old(io.journal)|..], GroupJournal(g))
    ensures ok ==> io.journal[|old(io.journal)|..] == GroupJournal(g)
    ensures ok ==> io.trace == old(io.trace) + GroupJournal(g)
    ensures old(io.pending) == [] ==>
              GroupStates(old(io.durable), g, io.states, |old(io.states)|)
    ensures ok && old(io.pending) == [] ==>
              && io.durable == ApplyGroup(old(io.durable), g) && io.pending == []
              && |io.states| > |old(io.states)|
              && io.states[|io.states| - 1] == DiskState(io.durable, [])
  {
    hide Splice, ApplyGroup, Overlay;
    ghost var d, p := io.durable, io.pending;
    ghost var j, t := io.journal, io.trace;
    assert g.table.replacement[..|g.table.replacement|] == g.table.replacement;
    assert g.header.replacement[..|g.header.replacement|] == g.header.replacement;
    var count := io.Pwrite(g.table.offset, g.table.replacement);
    if count != Some(|g.table.replacement|) {
      assert io.journal[|j|..] == [io.journal[|j|]];
      return false;
    }
    assert io.pending == p + [Pending(g.table.offset, g.table.replacement)];
    count := io.Pwrite(g.header.offset, g.header.replacement);
    if count != Some(|g.header.replacement|) {
      assert io.journal[|j|..] == [FullWrite(g.table), io.journal[|j| + 1]];
      return false;
    }
    ghost var w0, w1 := Pending(g.table.offset, g.table.replacement), Pending(g.header.offset, g.header.replacement);
    assert io.pending == p + [w0] + [w1];
    var done := io.Fsync();
    assert io.journal[|j|..] == [FullWrite(g.table), FullWrite(g.header), Flush(done)];
    if !done {
      return false;
    }
    if p == [] {
      OverlayGroup(d, g);
      assert [] + [w0] + [w1] == [w0, w1];
    }
    assert io.trace == t + GroupJournal(g);
    return true;
  }

  /** Both writes of a group over clean contents. */
  lemma OverlayGroup(d: Bytes, g: Group)
    requires GroupFits(|d|, g)
    ensures var w0, w1 := Pending(g.table.offset, g.table.replacement), Pending(g.header.offset, g.header.replacement);
            Fits(|d|, [w0, w1]) && Overlay(d, [w0, w1]) == ApplyGroup(d, g)
  {
    var w0, w1 := Pending(g.table.offset, g.table.replacement), Pending(g.header.offset, g.header.replacement);
    assert [w0, w1][..1] == [w0] && [w0][..0] == [];
    assert Overlay(d, [w0]) == Splice(d, w0.offset, w0.data);
  }

  /** One turn of the loop: guard, check, write, flush, check again. */
  method CommitGroup(io: BlockDevice, g: Group, view: seq<Watch>) returns (ok: bool, wrote: bool)
    requires io.Valid() && GroupFits(io.size, g) && WatchesFit(io.size, view) && Watched(view, g)
    modifies io`durable, io`pending, io`trace, io`journal, io`states, io`faults
    ensures old(io.faults) <= io.faults && (ok ==> io.faults == old(io.faults))
    ensures (&& io.exclusive && io.faults == old(io.faults) && old(io.pending) == [] && Shows(old(io.durable), view)
             && Shows(ApplyGroup(old(io.durable), g), NextView(view, g))) ==> ok
    ensures io.Valid() && old(io.trace) <= io.trace && old(io.journal) <= io.journal && old(io.states) <= io.states
    ensures wrote <==> io.journal != old(io.journal)
    ensures ok ==> wrote
    ensures JournalPrefix(io.journal[|old(io.journal)|..], GroupJournal(g))
    ensures ok ==> io.journal[|old(io.journal)|..] == GroupJournal(g)
    ensures ok ==> GroupVerified(io.trace, |old(io.trace)|, |io.trace|, g)
    ensures ok ==> WritesUpTo(io.trace, |io.trace|) == WritesUpTo(old(io.trace), |old(io.trace)|) + 2
    ensures wrote ==> exists c :: Prechecked(io.trace, |old(io.trace)|, c, view)
    ensures !wrote ==> io.SameDisk()
    ensures old(io.pending) == [] ==>
              GroupStates(old(io.durable), g, io.states, |old(io.states)|)
    ensures ok && old(io.pending) == [] ==>
              && io.durable == ApplyGroup(old(io.durable), g) && io.pending == []
              && |io.states| > |old(io.states)|
              && io.states[|io.states| - 1] == DiskState(io.durable, [])
  {
    hide ReadTwice, GroupVerified, NextView, Overlay, Fits, ApplyGroup, WritesUpTo, Watched, Shows;
    CleanView(io);
    ok, wrote := false, false;
    ghost var t0 := io.trace;
    ghost var j0 := io.journal;
    assert j0[|j0|..] == [];
    var granted := io.CheckGuard();
    if granted != Some(true) {
      return;
    }
    var same := CheckView(io, view);
    if !same {
      return;
    }
    ghost var t1 := io.trace;
    var written := WriteGroup(io, g);
    wrote := true;
    PrecheckDone(t0, t1, io.trace, view);
    if !written {
      return;
    }
    ghost var t2 := io.trace;
    NextViewLemma(view, g, io.size);
    CleanView(io);
    same := CheckView(io, NextView(view, g));
    PrecheckDone(t0, t1, io.trace, view);
    if !same {
      return;
    }
    GroupDone(t0, t1, t2, io.trace, g, NextView(view, g));
    ok := true;
  }

  /** With nothing unflushed, readers see the durable contents. */
  lemma CleanView(io: BlockDevice)
    requires io.Valid()
    ensures io.pending == [] ==> io.View() == io.durable
  {
  }

  lemma PrecheckDone(t0: seq<Event>, t1: seq<Event>, t2: seq<Event>, view: seq<Watch>)
    requires |t1| > |t0| && t0 <= t1 <= t2 && |t2| > |t1| && t1[|t0|] == Guard(true) && t2[|t1|].Write?
    requires forall k :: |t0| < k < |t1| ==> t1[k].Read?
    requires ReadTwice(t1, |t0| + 1, |t1|, view)
    ensures Prechecked(t2, |t0|, |t1|, view)
  {
    ReadsGrow(t1, t2, |t0| + 1, |t1|, |t1|, view);
    var mid :| |t0| + 1 <= mid <= |t1| && AllReadBack(t2, |t0| + 1, mid, view) && AllReadBack(t2, mid, |t1|, view);
    assert AllReadBack(t2, |t0|, mid, view) by {
      forall w | w in view ensures ReadBack(t2, |t0|, mid, w) {
        assert ReadBack(t2, |t0| + 1, mid, w);
      }
    }
    assert t2[|t0|] == t1[|t0|];
  }

  /** A turn that went through: written in full, flushed and read back, with two writes in all. */
  lemma GroupDone(t0: seq<Event>, t1: seq<Event>, t2: seq<Event>, t3: seq<Event>, g: Group, view: seq<Watch>)
    requires NoWrites(t0, t1) && t2 == t1 + GroupJournal(g) && OnlyReads(t2, t3)
    requires forall w :: w in AfterGroup(g) ==> w in view
    requires ReadTwice(t3, |t2|, |t3|, view)
    ensures GroupVerified(t3, |t0|, |t3|, g)
    ensures WritesUpTo(t3, |t3|) == WritesUpTo(t0, |t0|) + 2
  {
    var f := |t1| + 2;
    assert t3[f - 2] == t2[f - 2] && t3[f - 1] == t2[f - 1] && t3[f] == t2[f];
    assert ReadTwice(t3, f, |t3|, AfterGroup(g)) by {
      var mid :| |t2| <= mid <= |t3| && AllReadBack(t3, |t2|, mid, view) && AllReadBack(t3, mid, |t3|, view);
      forall w | w in AfterGroup(g) ensures ReadBack(t3, f, mid, w) && ReadBack(t3, mid, |t3|, w) {
        assert ReadBack(t3, |t2|, mid, w) && ReadBack(t3, mid, |t3|, w);
      }
      assert AllReadBack(t3, f, mid, AfterGroup(g));
    }
    assert FlushedAt(t3, |t0|, |t3|, g, f);
    QuietWrites(t0, t1);
    WritesOfPrefix(t1, t3, |t1|);
    assert WritesUpTo(t3, f - 1) == WritesUpTo(t3, f - 2) + 1;
    assert WritesUpTo(t3, f) == WritesUpTo(t3, f - 1) + 1;
    assert WritesUpTo(t3, f + 1) == WritesUpTo(t3, f);
    WritesStay(t3, f + 1, |t3|);
  }

  lemma GroupEarlier(t: seq<Event>, lo: int, lo': int, hi: int, g: Group)
    requires 0 <= lo <= lo' && GroupVerified(t, lo', hi, g)
    ensures GroupVerified(t, lo, hi, g)
  {
    var f :| FlushedAt(t, lo', hi, g, f);
    assert FlushedAt(t, lo, hi, g, f);
  }
}
