/** `commit_ntfs_gpt` as a whole: both copies, with an error that reports its progress. */
module GptCommit {
  import opened Bytes
  import opened Gpt
  import opened GptReader
  import opened ShrinkPlan
  import opened Preservation
  import opened UpdatePlan
  import opened RoundTrip
  import opened Images
  import opened Disk
  import opened TableIo
  import opened Commit
  import opened CrashSafety

  function Backups(u: Update): Group
    requires SectorOk(u.before.sector)
  {
    BackupGroup(u.before, u.captured, u.changed)
  }

  function Primaries(u: Update): Group
    requires SectorOk(u.before.sector)
  {
    PrimaryGroup(u.before, u.captured, u.changed)
  }

  /** The regions to re-read, in the order the program records them. */
  function InitialView(u: Update, mbr: Bytes): seq<Watch>
    requires SectorOk(u.before.sector)
  {
    var b, p := Backups(u), Primaries(u);
    [Watch(0, mbr), Watch(b.table.offset, b.table.original), Watch(b.header.offset, b.header.original),
     Watch(p.table.offset, p.table.original), Watch(p.header.offset, p.header.original)]
  }

  /** What a justified update gives the writer. */
  lemma UpdateFits(o: Oracles, p: Proposal, guid: Guid, proof: Digest, u: Update)
    requires Justified(o, p, guid, proof, u)
    ensures DeviceOk(u.before.device) && GeometryOk(u.before)
    ensures GroupsFit(u.before, u.captured, u.changed)
    ensures GroupFits(u.before.device.size, Backups(u)) && GroupFits(u.before.device.size, Primaries(u))
    ensures U64(u.captured.ph, 72) == u.before.primaryLba && U64(u.captured.bh, 72) == u.before.backupLba
    ensures EntryCount(u.captured) == u.before.count && EntryBytes(u.captured) == u.before.entry
  {
    ApprovedGroupsFit(o, p, u.before, u.plan, guid, u.captured, proof, ChangeOf(u.plan, guid));
    hide Approved, Observe, NewMetadata, Patchable, GeometryOk;
    GroupsFitDisk(u.before, u.captured, u.changed);
  }

  /** The watched regions fit the disk and include both groups, before and after the first. */
  lemma ViewsFit(u: Update, mbr: Bytes)
    requires DeviceOk(u.before.device) && GeometryOk(u.before) && GroupsFit(u.before, u.captured, u.changed)
    requires |mbr| == u.before.sector
    ensures WatchesFit(u.before.device.size, InitialView(u, mbr)) && Watched(InitialView(u, mbr), Backups(u))
    ensures WatchesFit(u.before.device.size, NextView(InitialView(u, mbr), Backups(u)))
    ensures Watched(NextView(InitialView(u, mbr), Backups(u)), Primaries(u))
  {
    InitialViewFits(u, mbr);
    hide Scale, Reserved, SectorsIn, GeometryOk, NextView, InitialView, WatchesFit;
    NextViewLemma(InitialView(u, mbr), Backups(u), u.before.device.size);
  }

  lemma InitialViewFits(u: Update, mbr: Bytes)
    requires DeviceOk(u.before.device) && GeometryOk(u.before) && GroupsFit(u.before, u.captured, u.changed)
    requires |mbr| == u.before.sector
    ensures WatchesFit(u.before.device.size, InitialView(u, mbr))
    ensures Watched(InitialView(u, mbr), Backups(u)) && Watched(InitialView(u, mbr), Primaries(u))
    ensures Primaries(u).table.offset !in {Backups(u).table.offset, Backups(u).header.offset}
    ensures Primaries(u).header.offset !in {Backups(u).table.offset, Backups(u).header.offset}
  {
    RegionsApart(u.before);
    hide Scale, Reserved, SectorsIn, GeometryOk;
    var view := InitialView(u, mbr);
    assert view[1] in view && view[2] in view && view[3] in view && view[4] in view;
  }

  /** Both copies in full. */
  function FullJournal(u: Update): seq<Event>
    requires SectorOk(u.before.sector)
  {
    GroupJournal(Backups(u)) + GroupJournal(Primaries(u))
  }

  /** After both copies had been verified, before event lo, the table was read again in two whole
      passes; what was read passed the layout check with this result; and then, as event `end`, the
      guard was granted once more. */
  ghost predicate WitnessedAt(o: Oracles, p: Proposal, guid: Guid, proof: Digest, u: Update, result: Snapshot,
                              trace: seq<Event>, from: int, lo: int, end: int, m: Metadata)
  {
    && SectorOk(u.before.sector) && 0 <= from <= lo <= end < |trace| && trace[end] == Guard(true)
    && GroupVerified(trace, from, lo, Backups(u)) && GroupVerified(trace, from, lo, Primaries(u))
    && ReadInTwoPasses(o, trace[..end], lo, u.before.device, u.before.sector, LayoutOf(u.plan),
                       Observation(result, proof), m)
    && VerifyCreatedLayout(o, p, guid, proof, Observation(result, proof)) == Some(result)
  }

  /** And that was the last event. */
  ghost predicate JustWitnessed(o: Oracles, p: Proposal, guid: Guid, proof: Digest, u: Update, result: Snapshot,
                                trace: seq<Event>, from: int)
  {
    exists lo, end, m :: WitnessedAt(o, p, guid, proof, u, result, trace, from, lo, end, m) && end == |trace| - 1
  }

  ghost predicate Witnessed(o: Oracles, p: Proposal, guid: Guid, proof: Digest, u: Update, result: Snapshot,
                            trace: seq<Event>, from: int)
  {
    exists lo, end, m :: WitnessedAt(o, p, guid, proof, u, result, trace, from, lo, end, m)
  }

  lemma WitnessedGrows(o: Oracles, p: Proposal, guid: Guid, proof: Digest, u: Update, result: Snapshot,
                       a: seq<Event>, b: seq<Event>, from: int, earlier: int)
    requires Witnessed(o, p, guid, proof, u, result, a, from) && a <= b && 0 <= earlier <= from
    ensures Witnessed(o, p, guid, proof, u, result, b, earlier)
  {
    hide WitnessedAt;
    var lo, end, m :| WitnessedAt(o, p, guid, proof, u, result, a, from, lo, end, m);
    WitnessedAtGrows(o, p, guid, proof, u, result, a, b, from, earlier, lo, end, m);
  }

  lemma WitnessedAtGrows(o: Oracles, p: Proposal, guid: Guid, proof: Digest, u: Update, result: Snapshot,
                         a: seq<Event>, b: seq<Event>, from: int, earlier: int, lo: int, end: int, m: Metadata)
    requires WitnessedAt(o, p, guid, proof, u, result, a, from, lo, end, m) && a <= b && 0 <= earlier <= from
    ensures WitnessedAt(o, p, guid, proof, u, result, b, earlier, lo, end, m)
  {
    hide GroupVerified, ReadInTwoPasses, VerifyCreatedLayout, BackupGroup, PrimaryGroup;
    VerifiedInLonger(a, b, from, lo, Backups(u));
    VerifiedInLonger(a, b, from, lo, Primaries(u));
    GroupEarlier(b, earlier, from, lo, Backups(u));
    GroupEarlier(b, earlier, from, lo, Primaries(u));
    assert b[..end] == a[..end];
  }

  /** What a finished commit leaves on the disk: from clean contents d, exactly the patched image,
      with nothing unflushed; and without another writer the reader sees the result. */
  ghost predicate Installed(o: Oracles, proof: Digest, u: Update, result: Snapshot, d: Bytes,
                            clean: bool, exclusive: bool, now: DiskState)
  {
    && (clean ==>
          && ImageOf(d, u.before) && GroupsFit(u.before, u.captured, u.changed)
          && now == DiskState(Patched(d, u.before, u.captured, u.changed), []))
    && (exclusive ==>
          && Fits(|now.durable|, now.pending)
          && ReadNtfs(o, ImageReader(Overlay(now.durable, now.pending)), u.before.device, u.before.sector,
                      LayoutOf(u.plan)) == Some(Observation(result, proof)))
  }

  /** Before the write that follows `done` writes of the window, the guard was granted and every
      watched region matched twice. */
  ghost predicate CheckedBeforeWriting(trace: seq<Event>, from: int, done: nat, view: seq<Watch>)
    requires 0 <= from <= |trace|
  {
    exists lo, c ::
      from <= lo && Prechecked(trace, lo, c, view)
      && WritesUpTo(trace, c) == WritesUpTo(trace, from) + done
  }

  /** Progress claims of the outcome: phase, attempted writes and verified copies. */
  ghost predicate Truthful(r: CommitResult, j: seq<Event>, trace: seq<Event>, from: int, u: Update)
    requires SectorOk(u.before.sector)
  {
    match r
    case Committed(_) =>
      && j == FullJournal(u)
      && GroupVerified(trace, from, |trace|, Backups(u)) && GroupVerified(trace, from, |trace|, Primaries(u))
    case CommitFailed(e) =>
      && (e.writeStarted <==> j != [])
      && 0 <= e.verifiedCopies <= 2
      && (e.verifiedCopies >= 1 ==> GroupVerified(trace, from, |trace|, Backups(u)))
      && (e.verifiedCopies >= 2 ==> GroupVerified(trace, from, |trace|, Primaries(u)))
      && (e.phase == Prepare ==> j == [] && e.verifiedCopies == 0)
      && (e.phase == Backup ==> |j| <= 3 && e.verifiedCopies == 0)
      && (e.phase == Primary ==> |j| >= 3 && e.verifiedCopies == 1)
      && (e.phase == Verify ==> j == FullJournal(u) && e.verifiedCopies == 2)
  }

  /** States since the start, in their phases: from state `cut` on the new backup is flushed, and
      that state is the one its flush made. */
  ghost predicate InPhases(d: Bytes, u: Update, states: seq<DiskState>, from: int, cut: int)
    requires SectorOk(u.before.sector) && GroupFits(|d|, Backups(u)) && GroupFits(|d|, Primaries(u))
  {
    && 0 <= from <= cut <= |states|
    && (forall i :: from <= i < |states| ==> RunState(d, Backups(u), Primaries(u), states[i], cut <= i))
    && (cut < |states| ==> states[cut] == DiskState(ApplyGroup(d, Backups(u)), []))
  }

  ghost predicate StatesSince(d: Bytes, u: Update, states: seq<DiskState>, from: int)
    requires SectorOk(u.before.sector) && GroupFits(|d|, Backups(u)) && GroupFits(|d|, Primaries(u))
  {
    exists cut :: InPhases(d, u, states, from, cut)
  }

  /** The states after n finished copies. */
  ghost predicate StatesAfter(n: int, d: Bytes, u: Update, states: seq<DiskState>, from: int)
    requires SectorOk(u.before.sector) && GroupFits(|d|, Backups(u)) && GroupFits(|d|, Primaries(u))
  {
    if n <= 0 then |states| == from
    else if n == 1 then InPhases(d, u, states, from, |states| - 1)
    else StatesSince(d, u, states, from)
  }

  /** Every crash in every state since the start leaves a complete copy: the old primary before
      state `cut`, the new backup from then on. */
  ghost predicate SafeFrom(o: Oracles, u: Update, guid: Guid, d: Bytes, states: seq<DiskState>, from: int, cut: int)
    requires ImageOf(d, u.before)
  {
    && 0 <= from <= cut <= |states|
    && forall i, img :: from <= i < |states| && CrashImage(states[i], img) ==>
         Recoverable(o, u.before, ExpectedParts(u.before.parts, u.plan, guid), d, img, cut <= i)
  }

  /** The same, for the cut at the backup's flush. */
  ghost predicate CrashSafeFrom(o: Oracles, u: Update, guid: Guid, d: Bytes, states: seq<DiskState>, from: int)
    requires ImageOf(d, u.before)
  {
    exists cut :: SafeFrom(o, u, guid, d, states, from, cut) && FlushedBackup(d, u, states, cut)
  }

  /** State `cut`, if there is one, has the new backup durable and nothing unflushed. */
  ghost predicate FlushedBackup(d: Bytes, u: Update, states: seq<DiskState>, cut: int)
    requires ImageOf(d, u.before)
  {
    0 <= cut < |states| ==>
      && GroupFits(|d|, Backups(u))
      && states[cut] == DiskState(ApplyGroup(d, Backups(u)), [])
  }

  lemma StatesAreSafe(o: Oracles, p: Proposal, guid: Guid, proof: Digest, u: Update, d: Bytes,
                      states: seq<DiskState>, from: int)
    requires Justified(o, p, guid, proof, u)
    requires ImageOf(d, u.before) && GroupsFit(u.before, u.captured, u.changed) && Carries(d, u.before, u.captured)
    requires GroupFits(|d|, Backups(u)) && GroupFits(|d|, Primaries(u))
    requires StatesSince(d, u, states, from)
    ensures CrashSafeFrom(o, u, guid, d, states, from)
  {
    var cut :| InPhases(d, u, states, from, cut);
    hide Justified, Recoverable, Carries, GroupsFit, GroupFits, RunState, CrashImage;
    forall i, img | from <= i < |states| && CrashImage(states[i], img)
      ensures Recoverable(o, u.before, ExpectedParts(u.before.parts, u.plan, guid), d, img, cut <= i)
    {
      EveryCrashRecoverable(o, p, guid, proof, u, d, states[i], img, cut <= i);
    }
    assert SafeFrom(o, u, guid, d, states, from, cut);
  }

  /** Preparation: everything up to the first write. Only reads and guards happen. */
  method PrepareCommit(o: Oracles, io: BlockDevice, device: Device, sector: int, p: Proposal, guid: Guid, proof: Digest)
    returns (r: Option<(Update, Bytes)>)
    requires io.Valid() && device.size == io.size
    modifies io`trace, io`faults
    ensures io.Valid() && io.SameDisk() && NoWrites(old(io.trace), io.trace)
    ensures old(io.faults) <= io.faults && (r.Some? ==> io.faults == old(io.faults))
    ensures io.exclusive && io.faults == old(io.faults) ==>
              (r.Some? <==> Committable(o, device, sector, p, guid, proof, io.View()))
    ensures r.Some? ==> Justified(o, p, guid, proof, r.value.0)
                        && r.value.0.before.device == device && r.value.0.before.sector == sector
    ensures r.Some? ==> |r.value.1| == sector
    ensures r.Some? && io.exclusive ==>
              SectorOk(sector)
              && ReadMetadata(ImageReader(io.View()), device, sector) == Some(r.value.0.captured)
              && r.value.1 == r.value.0.captured.mbr
  {
    hide NtfsShrinkPlan, Normalize, Observe, ReadMetadata, Justified, ImageReader;
    ghost var img := io.View();
    forall u | UpdateOf(o, p, guid, proof, img, u)
      ensures Normalize(o, p.snapshot) == Some(u.before)
    {
      UpdateMeets(o, p, guid, proof, img, u);
    }
    var normal := NormalizeSnapshot(o, p.snapshot, None);
    if normal.None? || sector != normal.value.sector || device != normal.value.device {
      return None;
    }
    assert normal.value.device == p.snapshot.device;
    var granted := io.CheckGuard();
    if granted != Some(true) {
      return None;
    }
    var update := NtfsGptUpdatePlan(o, io, p, guid, proof);
    if update.None? {
      return None;
    }
    var u := update.value;
    JustifiedInventory(o, p, guid, proof, u);
    var mbr := io.Pread(0, sector);
    if mbr.None? || |mbr.value| != sector {
      return None;
    }
    if io.exclusive {
      MbrIsRead(img, device, sector, u.captured);
      CapturedIsObserved(o, p, guid, proof, u);
    }
    var again := ObserveTable(o, u.captured.(mbr := mbr.value), device, sector, LayoutOf(u.plan));
    if again != Some(Observation(u.before, proof)) {
      return None;
    }
    return Some((u, mbr.value));
  }

  /** The approved table as the commit finds it on its own device. */
  ghost predicate Committable(o: Oracles, device: Device, sector: int, p: Proposal, guid: Guid, proof: Digest,
                              img: Bytes)
  {
    exists u :: UpdateOf(o, p, guid, proof, img, u) && u.before.device == device && u.before.sector == sector
  }

  lemma MbrIsRead(img: Bytes, device: Device, sector: int, m: Metadata)
    requires SectorOk(sector) && ReadMetadata(ImageReader(img), device, sector) == Some(m)
    ensures sector <= |img| && img[0..sector] == m.mbr
  {
  }

  lemma CapturedIsObserved(o: Oracles, p: Proposal, guid: Guid, proof: Digest, u: Update)
    requires Justified(o, p, guid, proof, u)
    ensures SectorOk(u.before.sector) && Shaped(u.captured, u.before.sector)
    ensures u.captured.(mbr := u.captured.mbr) == u.captured
    ensures Observe(o, u.captured, u.before.device, u.before.sector, LayoutOf(u.plan))
            == Some(Observation(u.before, proof))
  {
  }

  lemma JustifiedInventory(o: Oracles, p: Proposal, guid: Guid, proof: Digest, u: Update)
    requires Justified(o, p, guid, proof, u)
    ensures Normalize(o, p.snapshot) == Some(u.before) && SectorOk(u.before.sector)
    ensures Shaped(u.captured, u.before.sector)
    ensures u.before.sector <= u.before.device.size
  {
    UpdateFits(o, p, guid, proof, u);
    RegionsApart(u.before);
  }

  // The loop over the two copies

  /** The first n copies are done: journal, read-backs and the view to check next. */
  ghost predicate CopiesSeen(n: int, u: Update, mbr: Bytes, j: seq<Event>, trace: seq<Event>, from: int,
                             view: seq<Watch>)
    requires SectorOk(u.before.sector)
  {
    && 0 <= n <= 2 && 0 <= from <= |trace|
    && (n == 0 ==> j == [] && view == InitialView(u, mbr))
    && (n == 1 ==> j == GroupJournal(Backups(u)) && view == NextView(InitialView(u, mbr), Backups(u)))
    && (n == 2 ==> j == FullJournal(u))
    && (n >= 1 ==> GroupVerified(trace, from, |trace|, Backups(u))
                   && CheckedBeforeWriting(trace, from, 0, InitialView(u, mbr)))
    && (n >= 2 ==> GroupVerified(trace, from, |trace|, Primaries(u))
                   && CheckedBeforeWriting(trace, from, 2, NextView(InitialView(u, mbr), Backups(u))))
  }

  /** And there have been two writes for each. */
  ghost predicate CopiesDone(n: int, u: Update, mbr: Bytes, j: seq<Event>, trace: seq<Event>, from: int,
                             view: seq<Watch>)
    requires SectorOk(u.before.sector)
  {
    && CopiesSeen(n, u, mbr, j, trace, from, view)
    && WritesUpTo(trace, |trace|) == WritesUpTo(trace, from) + 2 * n
  }

  /** Everything the outcome of a commit must satisfy. */
  ghost predicate Accounted(r: CommitResult, u: Update, mbr: Bytes, j: seq<Event>, trace: seq<Event>, from: int)
    requires SectorOk(u.before.sector)
  {
    && Truthful(r, j, trace, from, u)
    && JournalPrefix(j, FullJournal(u))
    && 0 <= from <= |trace|
    && (j != [] ==> CheckedBeforeWriting(trace, from, 0, InitialView(u, mbr)))
    && (|j| > 3 ==> CheckedBeforeWriting(trace, from, 2, NextView(InitialView(u, mbr), Backups(u))))
  }

  /** Later events keep what is already established. */
  lemma SeenGrows(n: int, u: Update, mbr: Bytes, j: seq<Event>, a: seq<Event>, b: seq<Event>, from: int,
                  view: seq<Watch>)
    requires SectorOk(u.before.sector) && a <= b && CopiesSeen(n, u, mbr, j, a, from, view)
    ensures CopiesSeen(n, u, mbr, j, b, from, view)
  {
    VerifiedGrows(a, b, from, Backups(u));
    VerifiedGrows(a, b, from, Primaries(u));
    CheckedGrows(a, b, from, 0, InitialView(u, mbr));
    CheckedGrows(a, b, from, 2, NextView(InitialView(u, mbr), Backups(u)));
    hide GroupVerified, CheckedBeforeWriting, FullJournal, NextView, InitialView;
  }

  lemma VerifiedGrows(a: seq<Event>, b: seq<Event>, from: int, g: Group)
    requires a <= b
    ensures GroupVerified(a, from, |a|, g) ==> GroupVerified(b, from, |b|, g)
  {
    if GroupVerified(a, from, |a|, g) {
      var f :| FlushedAt(a, from, |a|, g, f);
      ReadsGrow(a, b, f, |a|, |b|, AfterGroup(g));
      assert FlushedAt(b, from, |b|, g, f);
    }
  }

  lemma CheckedGrows(a: seq<Event>, b: seq<Event>, from: int, done: nat, view: seq<Watch>)
    requires a <= b && 0 <= from <= |a|
    ensures CheckedBeforeWriting(a, from, done, view) ==> CheckedBeforeWriting(b, from, done, view)
  {
    if CheckedBeforeWriting(a, from, done, view) {
      var lo, c :| from <= lo && Prechecked(a, lo, c, view) && WritesUpTo(a, c) == WritesUpTo(a, from) + done;
      PrecheckedInLonger(a, b, lo, c, view);
      WritesOfPrefix(a, b, c);
      WritesOfPrefix(a, b, from);
    }
  }

  /** A check made at the end of a trace with `done` writes is one before the next write. */
  lemma CheckedNow(a: seq<Event>, b: seq<Event>, from: int, done: nat, c: int, view: seq<Watch>)
    requires a <= b && 0 <= from <= |a| && Prechecked(b, |a|, c, view)
    requires WritesUpTo(a, |a|) == WritesUpTo(a, from) + done
    ensures CheckedBeforeWriting(b, from, done, view)
  {
    PrecheckedInLonger(b, b, |a|, c, view);
    WritesOfPrefix(a, b, |a|);
    WritesOfPrefix(a, b, from);
  }

  /** A turn of the loop that stopped: the journal is a prefix of the planned one. */
  lemma TurnStopped(n: int, u: Update, mbr: Bytes, j: seq<Event>, more: seq<Event>, a: seq<Event>, b: seq<Event>,
                    from: int, view: seq<Watch>, g: Group)
    requires SectorOk(u.before.sector) && a <= b && 0 <= n < 2 && CopiesDone(n, u, mbr, j, a, from, view)
    requires g == (if n == 0 then Backups(u) else Primaries(u))
    requires JournalPrefix(more, GroupJournal(g))
    requires more != [] ==> exists c :: Prechecked(b, |a|, c, view)
    ensures Accounted(CommitFailed(CommitError(if n == 0 then Backup else Primary, j + more != [], n)),
                      u, mbr, j + more, b, from)
  {
    hide GroupVerified, CheckedBeforeWriting, NextView, InitialView, Prechecked, WritesUpTo;
    SeenGrows(n, u, mbr, j, a, b, from, view);
    if more != [] {
      var c :| Prechecked(b, |a|, c, view);
      CheckedNow(a, b, from, 2 * n, c, view);
    }
  }

  /** A turn of the loop that completed. */
  lemma TurnDone(n: int, u: Update, mbr: Bytes, j: seq<Event>, a: seq<Event>, b: seq<Event>, from: int,
                 view: seq<Watch>, g: Group)
    requires SectorOk(u.before.sector) && a <= b && 0 <= n < 2 && CopiesDone(n, u, mbr, j, a, from, view)
    requires g == (if n == 0 then Backups(u) else Primaries(u))
    requires GroupVerified(b, |a|, |b|, g) && exists c :: Prechecked(b, |a|, c, view)
    requires WritesUpTo(b, |b|) == WritesUpTo(a, |a|) + 2
    ensures CopiesDone(n + 1, u, mbr, j + GroupJournal(g), b, from, NextView(view, g))
  {
    hide GroupVerified, CheckedBeforeWriting, InitialView, Prechecked, WritesUpTo, NextView;
    SeenGrows(n, u, mbr, j, a, b, from, view);
    GroupEarlier(b, from, |a|, |b|, g);
    var c :| Prechecked(b, |a|, c, view);
    CheckedNow(a, b, from, 2 * n, c, view);
    WritesOfPrefix(a, b, from);
    assert [] + GroupJournal(g) == GroupJournal(g);
  }

  /** The commit. The ghost results name the update that justified the writes, if any got that far. */
  method CommitNtfsGpt(o: Oracles, io: BlockDevice, device: Device, sector: int, p: Proposal, guid: Guid, proof: Digest)
    returns (r: CommitResult, ghost update: Option<(Update, Bytes)>)
    requires io.Valid() && device.size == io.size
    modifies io`durable, io`pending, io`trace, io`journal, io`states, io`faults
    ensures io.Valid() && old(io.trace) <= io.trace && old(io.journal) <= io.journal && old(io.states) <= io.states
    ensures old(io.faults) <= io.faults && (r.Committed? ==> io.faults == old(io.faults))
    ensures io.exclusive && old(io.pending) == [] && io.faults == old(io.faults) ==>
              (r.Committed? <==> Committable(o, device, sector, p, guid, proof, old(io.durable)))
    ensures update.None? ==> io.SameDisk() && r == CommitFailed(CommitError(Prepare, false, 0))
    ensures update.Some? ==>
              Justified(o, p, guid, proof, update.value.0) && SectorOk(update.value.0.before.sector)
              && Accounted(r, update.value.0, update.value.1, io.journal[|old(io.journal)|..], io.trace,
                           |old(io.trace)|)
    ensures update.Some? && old(io.pending) == [] ==>
              GroupFits(io.size, Backups(update.value.0)) && GroupFits(io.size, Primaries(update.value.0))
              && StatesSince(old(io.durable), update.value.0, io.states, |old(io.states)|)
    ensures update.Some? && io.exclusive && old(io.pending) == [] ==>
              ImageOf(old(io.durable), update.value.0.before)
              && CrashSafeFrom(o, update.value.0, guid, old(io.durable), io.states, |old(io.states)|)
    ensures r.Committed? ==>
              && update.Some?
              && JustWitnessed(o, p, guid, proof, update.value.0, r.snapshot, io.trace, |old(io.trace)|)
              && Installed(o, proof, update.value.0, r.snapshot, old(io.durable), old(io.pending) == [], io.exclusive,
                           DiskState(io.durable, io.pending))
  {
    update := None;
    CleanView(io);
    var prepared := PrepareCommit(o, io, device, sector, p, guid, proof);
    if prepared.None? {
      return CommitFailed(CommitError(CommitPhase.Prepare, false, 0)), None;
    }
    var u, mbr := prepared.value.0, prepared.value.1;
    update := prepared;
    JustifiedInventory(o, p, guid, proof, u);
    hide Justified, Accounted, CrashSafeFrom, JustWitnessed, Installed, ReadMetadata, ImageReader, StatesSince,
         Committable;
    r := CommitPrepared(o, io, device, sector, p, guid, proof, u, mbr, old(io.trace));
  }

  /** What preparation hands to the writer. */
  lemma Launch(o: Oracles, p: Proposal, guid: Guid, proof: Digest, u: Update, mbr: Bytes,
               before: seq<Event>, trace: seq<Event>)
    requires Justified(o, p, guid, proof, u) && |mbr| == u.before.sector && NoWrites(before, trace)
    ensures SectorOk(u.before.sector)
    ensures InTurn(0, u, mbr, u.before.device.size, InitialView(u, mbr))
    ensures CopiesDone(0, u, mbr, [], trace, |before|, InitialView(u, mbr))
  {
    hide Justified, WritesUpTo, GeometryOk, GroupsFit, GroupFits, InTurn, InitialView, GroupVerified, NextView;
    JustifiedInventory(o, p, guid, proof, u);
    UpdateFits(o, p, guid, proof, u);
    QuietWrites(before, trace);
    WritesOfPrefix(before, trace, |before|);
    StartTurn(u, mbr);
  }

  /** A clean, exclusively owned disk that was read as the captured table is safe throughout. */
  lemma RunIsSafe(o: Oracles, p: Proposal, guid: Guid, proof: Digest, u: Update, d: Bytes,
                  states: seq<DiskState>, from: int)
    requires Justified(o, p, guid, proof, u) && |d| == u.before.device.size && SectorOk(u.before.sector)
    requires ReadMetadata(ImageReader(d), u.before.device, u.before.sector) == Some(u.captured)
    requires GroupFits(|d|, Backups(u)) && GroupFits(|d|, Primaries(u))
    requires StatesSince(d, u, states, from)
    ensures ImageOf(d, u.before) && CrashSafeFrom(o, u, guid, d, states, from)
  {
    UpdateFits(o, p, guid, proof, u);
    hide Justified, ReadMetadata, ImageReader, StatesSince, CrashSafeFrom;
    CarriesRead(d, u.before, u.captured);
    StatesAreSafe(o, p, guid, proof, u, d, states, from);
  }

  /** From the first write on. */
  method CommitPrepared(o: Oracles, io: BlockDevice, device: Device, sector: int, p: Proposal, guid: Guid,
                        proof: Digest, u: Update, mbr: Bytes, ghost before: seq<Event>)
    returns (r: CommitResult)
    requires io.Valid() && device.size == io.size && NoWrites(before, io.trace)
    requires Justified(o, p, guid, proof, u) && u.before.device == device && u.before.sector == sector
    requires SectorOk(sector) && |mbr| == sector
    requires io.exclusive ==> ReadMetadata(ImageReader(io.View()), device, sector) == Some(u.captured)
                              && mbr == u.captured.mbr
    modifies io`durable, io`pending, io`trace, io`journal, io`states, io`faults
    ensures io.Valid() && old(io.trace) <= io.trace && old(io.journal) <= io.journal && old(io.states) <= io.states
    ensures old(io.faults) <= io.faults && (r.Committed? ==> io.faults == old(io.faults))
    ensures io.exclusive && old(io.pending) == [] && io.faults == old(io.faults) ==> r.Committed?
    ensures Accounted(r, u, mbr, io.journal[|old(io.journal)|..], io.trace, |before|)
    ensures old(io.pending) == [] ==>
              GroupFits(io.size, Backups(u)) && GroupFits(io.size, Primaries(u))
              && StatesSince(old(io.durable), u, io.states, |old(io.states)|)
    ensures io.exclusive && old(io.pending) == [] ==>
              ImageOf(old(io.durable), u.before)
              && CrashSafeFrom(o, u, guid, old(io.durable), io.states, |old(io.states)|)
    ensures r.Committed? ==>
              && JustWitnessed(o, p, guid, proof, u, r.snapshot, io.trace, |before|)
              && Installed(o, proof, u, r.snapshot, old(io.durable), old(io.pending) == [], io.exclusive,
                           DiskState(io.durable, io.pending))
  {
    hide Justified, GeometryOk, ReadMetadata, ImageReader, InitialView, CopiesDone, Accounted,
         Backups, Primaries, InTurn, CrashSafeFrom, RunState, GroupsFit, JustWitnessed, Carries, StatesSince, ImageOf,
         Installed, NoWrites, Milestone, ReadNtfs;
    ghost var j0, s0, d0 := |io.journal|, |io.states|, io.durable;
    Launch(o, p, guid, proof, u, mbr, before, io.trace);
    assert io.journal[j0..] == [];
    assert NoWrites(before, io.trace) ==> |before| <= |io.trace| by {
      PrefixLength(before, io.trace);
    }
    if io.exclusive && io.pending == [] {
      CleanView(io);
      PatchedVerifies(o, p, guid, proof, u, mbr, d0);
    }
    var stopped, view := WriteCopies(io, u, mbr, |before|, j0, s0, d0);
    if io.exclusive && old(io.pending) == [] {
      RunIsSafe(o, p, guid, proof, u, d0, io.states, s0);
    }
    if stopped.Some? {
      return CommitFailed(stopped.value);
    }
    CleanView(io);
    r := VerifyCommit(o, io, device, sector, p, guid, proof, u, mbr, view, |before|, j0);
    if r.Committed? {
      FinalState(o, p, guid, proof, u, r.snapshot, d0, old(io.pending) == [], io.exclusive,
                 DiskState(io.durable, io.pending));
    }
  }

  /** The five regions of an inventory, with the bytes of one table. */
  function FiveWatches(s: Snapshot, m: Metadata): seq<Watch>
    requires SectorOk(s.sector)
  {
    [Watch(0, m.mbr), Watch(Scale(s.backupLba, s.sector), m.ba), Watch(Scale(Total(s) - 1, s.sector), m.bh),
     Watch(Scale(s.primaryLba, s.sector), m.pa), Watch(s.sector, m.ph)]
  }

  lemma FiveShown(d: Bytes, s: Snapshot, m: Metadata)
    requires ImageOf(d, s) && Carries(d, s, m)
    ensures Shows(d, FiveWatches(s, m))
  {
    RegionsApart(s);
    hide Scale, SectorsIn, Reserved, GeometryOk;
    var view := FiveWatches(s, m);
    assert RegionShows(d, view[0]) && RegionShows(d, view[4]);
    assert RegionShows(d, view[1]);
    assert RegionShows(d, view[2]);
    assert RegionShows(d, view[3]);
  }

  /** The table after n copies. */
  function TableAfter(n: int, u: Update): Metadata {
    if n <= 0 then u.captured
    else if n == 1 then u.captured.(ba := u.changed.ba, bh := u.changed.bh)
    else u.changed
  }

  lemma ViewIsTable(n: int, u: Update, mbr: Bytes)
    requires DeviceOk(u.before.device) && GeometryOk(u.before) && GroupsFit(u.before, u.captured, u.changed)
    requires 0 <= n <= 2 && mbr == u.captured.mbr
    ensures ViewAt(n, u, mbr) == FiveWatches(u.before, TableAfter(n, u))
  {
    RegionsApart(u.before);
    hide Scale, SectorsIn, Reserved, GeometryOk;
    if n > 0 {
      NextFive(u.before, u.captured, Backups(u));
    }
    if n > 1 {
      NextFive(u.before, TableAfter(1, u), Primaries(u));
    }
  }

  /** What a group overwrites is watched with its new bytes afterwards. */
  lemma NextFive(s: Snapshot, m: Metadata, g: Group)
    requires DeviceOk(s.device) && GeometryOk(s)
    requires |m.ba| == |m.pa| == ReservedBytes(s) && |m.bh| == |m.ph| == s.sector
    ensures |g.table.replacement| == ReservedBytes(s) && |g.header.replacement| == s.sector
            && g.table.offset == Scale(s.backupLba, s.sector) && g.header.offset == Scale(Total(s) - 1, s.sector) ==>
              NextView(FiveWatches(s, m), g)
              == FiveWatches(s, m.(ba := g.table.replacement, bh := g.header.replacement))
    ensures |g.table.replacement| == ReservedBytes(s) && |g.header.replacement| == s.sector
            && g.table.offset == Scale(s.primaryLba, s.sector) && g.header.offset == s.sector ==>
              NextView(FiveWatches(s, m), g)
              == FiveWatches(s, m.(pa := g.table.replacement, ph := g.header.replacement))
  {
    RegionsApart(s);
    hide Scale, SectorsIn, Reserved, GeometryOk;
  }

  lemma CarriedAfter(n: int, u: Update, d: Bytes)
    requires ImageOf(d, u.before) && GroupsFit(u.before, u.captured, u.changed) && Carries(d, u.before, u.captured)
    requires 0 <= n <= 2 && GroupFits(|d|, Backups(u)) && GroupFits(|d|, Primaries(u))
    ensures ImageOf(Milestone(d, u, n), u.before) && Carries(Milestone(d, u, n), u.before, TableAfter(n, u))
  {
    var s, b := u.before, Backups(u);
    if n == 1 {
      BackupApplied(d, s, u.captured, u.changed);
      RegionsApart(s);
      hide Scale, SectorsIn, Reserved, GeometryOk, ApplyGroup;
      ApplyGroupKeeps(d, b, PrimaryHeaderSpan(s));
      ApplyGroupKeeps(d, b, PrimaryArraySpan(s));
    } else if n == 2 {
      PatchedCarries(d, s, u.captured, u.changed);
    }
  }

  lemma VisibleThroughout(u: Update, mbr: Bytes, d: Bytes)
    requires ImageOf(d, u.before) && GroupsFit(u.before, u.captured, u.changed) && Carries(d, u.before, u.captured)
    requires SectorOk(u.before.sector) && GroupFits(|d|, Backups(u)) && GroupFits(|d|, Primaries(u))
    requires mbr == u.captured.mbr
    ensures Visible(d, u, mbr)
  {
    hide Shows, Carries, GroupsFit, GroupFits, ViewAt, FiveWatches, TableAfter, GeometryOk, Milestone;
    forall n | 0 <= n <= 2 ensures Shows(Milestone(d, u, n), ViewAt(n, u, mbr)) {
      CarriedAfter(n, u, d);
      FiveShown(Milestone(d, u, n), u.before, TableAfter(n, u));
      ViewIsTable(n, u, mbr);
    }
  }

  /** Every check of the commit, and the last reading, as an approved image meets them. */
  lemma PatchedVerifies(o: Oracles, p: Proposal, guid: Guid, proof: Digest, u: Update, mbr: Bytes, d: Bytes)
    requires UpdateOf(o, p, guid, proof, d, u) && |d| == u.before.device.size && mbr == u.captured.mbr
    ensures SectorOk(u.before.sector) && GroupFits(|d|, Backups(u)) && GroupFits(|d|, Primaries(u))
    ensures Visible(d, u, mbr)
    ensures Passes(o, p, guid, proof, Milestone(d, u, 2), u.before.device, u.before.sector, LayoutOf(u.plan))
  {
    UpdateFits(o, p, guid, proof, u);
    hide Justified, ReadMetadata, ImageReader, GeometryOk, GroupsFit, Visible, GroupFits, Carries, Milestone, Passes;
    CarriesRead(d, u.before, u.captured);
    VisibleThroughout(u, mbr, d);
    PatchedPasses(o, p, guid, proof, u, d);
  }

  lemma PatchedPasses(o: Oracles, p: Proposal, guid: Guid, proof: Digest, u: Update, d: Bytes)
    requires UpdateOf(o, p, guid, proof, d, u) && ImageOf(d, u.before) && GroupsFit(u.before, u.captured, u.changed)
    requires SectorOk(u.before.sector) && GroupFits(|d|, Backups(u)) && GroupFits(|d|, Primaries(u))
    requires Carries(d, u.before, u.captured)
    ensures Passes(o, p, guid, proof, Milestone(d, u, 2), u.before.device, u.before.sector, LayoutOf(u.plan))
  {
    hide Justified, NtfsShrinkPlan, Normalize, FreshGuid, ReadMetadata, Observe, VerifyCreatedLayout, ImageReader,
         GeometryOk, Milestone, Carries, GroupsFit, EntryCount, EntryBytes;
    UpdateMeets(o, p, guid, proof, d, u);
    ChangedPlacement(o, p, guid, proof, u);
    CarriedAfter(2, u, d);
    ReadCarries(Milestone(d, u, 2), u.before, u.changed);
  }

  lemma ChangedPlacement(o: Oracles, p: Proposal, guid: Guid, proof: Digest, u: Update)
    requires Justified(o, p, guid, proof, u)
    ensures U64(u.changed.ph, 72) == u.before.primaryLba && U64(u.changed.bh, 72) == u.before.backupLba
    ensures EntryCount(u.changed) == u.before.count && EntryBytes(u.changed) == u.before.entry
  {
    ApprovedGroupsFit(o, p, u.before, u.plan, guid, u.captured, proof, ChangeOf(u.plan, guid));
  }

  lemma PrefixLength(a: seq<Event>, b: seq<Event>)
    ensures NoWrites(a, b) ==> |a| <= |b|
  {
  }

  /** The state after the last turn is the patched image. */
  lemma FinalState(o: Oracles, p: Proposal, guid: Guid, proof: Digest, u: Update, result: Snapshot, d: Bytes,
                   clean: bool, exclusive: bool, now: DiskState)
    requires Justified(o, p, guid, proof, u) && SectorOk(u.before.sector) && |d| == u.before.device.size
    requires GroupFits(|d|, Backups(u)) && GroupFits(|d|, Primaries(u))
    requires clean ==> now == DiskState(Milestone(d, u, 2), [])
    requires exclusive ==>
               && Fits(|now.durable|, now.pending)
               && ReadNtfs(o, ImageReader(Overlay(now.durable, now.pending)), u.before.device, u.before.sector,
                           LayoutOf(u.plan)) == Some(Observation(result, proof))
    ensures Installed(o, proof, u, result, d, clean, exclusive, now)
  {
    UpdateFits(o, p, guid, proof, u);
    hide Justified, GeometryOk, ReadNtfs, ImageReader, Overlay, Fits, GroupsFit, ApplyGroup;
  }

  /** The loop over the two copies, backup first; it stops at the first failure. */
  method WriteCopies(io: BlockDevice, u: Update, mbr: Bytes, ghost from: nat, ghost j0: nat, ghost s0: nat,
                     ghost d0: Bytes)
    returns (stopped: Option<CommitError>, view: seq<Watch>)
    requires io.Valid() && SectorOk(u.before.sector) && |d0| == io.size && j0 <= |io.journal| && s0 <= |io.states|
    requires InTurn(0, u, mbr, io.size, InitialView(u, mbr))
    requires CopiesDone(0, u, mbr, io.journal[j0..], io.trace, from, InitialView(u, mbr))
    modifies io`durable, io`pending, io`trace, io`journal, io`states, io`faults
    ensures io.Valid() && old(io.trace) <= io.trace && old(io.journal) <= io.journal && old(io.states) <= io.states
    ensures old(io.faults) <= io.faults && (stopped.None? ==> io.faults == old(io.faults))
    ensures (&& io.exclusive && io.faults == old(io.faults) && old(io.pending == [] && io.durable == d0)
             && GroupFits(|d0|, Backups(u)) && GroupFits(|d0|, Primaries(u)) && Visible(d0, u, mbr)) ==> stopped.None?
    ensures stopped.None? ==> CopiesDone(2, u, mbr, io.journal[j0..], io.trace, from, view)
    ensures stopped.Some? ==> Accounted(CommitFailed(stopped.value), u, mbr, io.journal[j0..], io.trace, from)
    ensures GroupFits(|d0|, Backups(u)) && GroupFits(|d0|, Primaries(u))
    ensures old(io.pending == [] && io.durable == d0 && s0 == |io.states|) ==>
              && StatesSince(d0, u, io.states, s0)
              && (stopped.None? ==> io.pending == [] && io.durable == Milestone(d0, u, 2))
  {
    hide InitialView, CopiesDone, Accounted, Backups, Primaries, RunState, NextView, InPhases;
    view := InitialView(u, mbr);
    var verified := 0;
    ghost var clean := io.pending == [] && io.durable == d0 && s0 == |io.states|;
    while verified < 2
      invariant 0 <= verified <= 2 && io.Valid()
      invariant old(io.trace) <= io.trace && old(io.journal) <= io.journal && old(io.states) <= io.states
      invariant InTurn(verified, u, mbr, io.size, view)
      invariant CopiesDone(verified, u, mbr, io.journal[j0..], io.trace, from, view)
      invariant io.faults == old(io.faults) && view == ViewAt(verified, u, mbr)
      invariant old(io.pending == [] && io.durable == d0) ==>
                  io.pending == [] && io.durable == Milestone(d0, u, verified)
      invariant clean ==>
                  io.pending == [] && io.durable == Milestone(d0, u, verified)
                  && StatesAfter(verified, d0, u, io.states, s0)
      decreases 2 - verified
    {
      var phase := if verified == 0 then CommitPhase.Backup else CommitPhase.Primary;
      var ok, wrote := CommitTurn(io, u, mbr, verified, view, from, j0, s0, d0);
      if !ok {
        return Some(CommitError(phase, verified > 0 || wrote, verified)), view;
      }
      NextTurn(u, mbr, io.size, verified, view);
      view := NextView(view, GroupOf(u, verified));
      verified := verified + 1;
    }
    stopped := None;
  }

  /** The regions to check before turn n. */
  function ViewAt(n: int, u: Update, mbr: Bytes): seq<Watch>
    requires SectorOk(u.before.sector)
  {
    if n <= 0 then InitialView(u, mbr)
    else if n == 1 then NextView(InitialView(u, mbr), Backups(u))
    else NextView(NextView(InitialView(u, mbr), Backups(u)), Primaries(u))
  }

  /** From contents d on, every copy in turn leaves what the next check expects. */
  ghost predicate Visible(d: Bytes, u: Update, mbr: Bytes)
    requires SectorOk(u.before.sector) && GroupFits(|d|, Backups(u)) && GroupFits(|d|, Primaries(u))
  {
    forall n :: 0 <= n <= 2 ==> Shows(Milestone(d, u, n), ViewAt(n, u, mbr))
  }

  /** The copy written in turn n. */
  function GroupOf(u: Update, n: int): Group
    requires SectorOk(u.before.sector)
  {
    if n == 0 then Backups(u) else Primaries(u)
  }

  /** The view is fit for turn n. */
  ghost predicate InTurn(n: int, u: Update, mbr: Bytes, size: int, view: seq<Watch>)
    requires SectorOk(u.before.sector)
  {
    && GroupFits(size, Backups(u)) && GroupFits(size, Primaries(u))
    && (n < 2 ==> WatchesFit(size, view) && Watched(view, GroupOf(u, n)))
    && (n == 0 ==> WatchesFit(size, NextView(view, Backups(u))) && Watched(NextView(view, Backups(u)), Primaries(u)))
  }

  /** Before the first turn nothing is done and the view is fit. */
  lemma StartTurn(u: Update, mbr: Bytes)
    requires DeviceOk(u.before.device) && GeometryOk(u.before) && GroupsFit(u.before, u.captured, u.changed)
    requires |mbr| == u.before.sector
    ensures InTurn(0, u, mbr, u.before.device.size, InitialView(u, mbr))
  {
    ViewsFit(u, mbr);
    GroupsFitDisk(u.before, u.captured, u.changed);
  }

  lemma NextTurn(u: Update, mbr: Bytes, size: int, n: int, view: seq<Watch>)
    requires SectorOk(u.before.sector) && 0 <= n < 2 && InTurn(n, u, mbr, size, view)
    ensures InTurn(n + 1, u, mbr, size, NextView(view, GroupOf(u, n)))
  {
  }

  /** One turn, with what it adds to the journal, the trace and the history. */
  method CommitTurn(io: BlockDevice, u: Update, mbr: Bytes, n: int, view: seq<Watch>,
                    ghost from: nat, ghost j0: nat, ghost s0: nat, ghost d0: Bytes)
    returns (ok: bool, wrote: bool)
    requires io.Valid() && 0 <= n < 2 && SectorOk(u.before.sector) && |d0| == io.size
    requires InTurn(n, u, mbr, io.size, view) && j0 <= |io.journal|
    requires CopiesDone(n, u, mbr, io.journal[j0..], io.trace, from, view)
    modifies io`durable, io`pending, io`trace, io`journal, io`states, io`faults
    ensures io.Valid() && old(io.trace) <= io.trace && old(io.journal) <= io.journal && old(io.states) <= io.states
    ensures old(io.faults) <= io.faults && (ok ==> io.faults == old(io.faults))
    ensures (&& io.exclusive && io.faults == old(io.faults)
             && old(io.pending == [] && io.durable == Milestone(d0, u, n)) && Shows(Milestone(d0, u, n), view)
             && Shows(Milestone(d0, u, n + 1), NextView(view, GroupOf(u, n)))) ==> ok
    ensures ok && old(io.pending == [] && io.durable == Milestone(d0, u, n)) ==>
              io.pending == [] && io.durable == Milestone(d0, u, n + 1)
    ensures ok ==> CopiesDone(n + 1, u, mbr, io.journal[j0..], io.trace, from, NextView(view, GroupOf(u, n)))
    ensures !ok ==> Accounted(CommitFailed(CommitError(if n == 0 then Backup else Primary, n > 0 || wrote, n)),
                              u, mbr, io.journal[j0..], io.trace, from)
    ensures old(io.pending == [] && io.durable == Milestone(d0, u, n) && StatesAfter(n, d0, u, io.states, s0)) ==>
              && StatesSince(d0, u, io.states, s0)
              && (ok ==> io.pending == [] && io.durable == Milestone(d0, u, n + 1)
                         && StatesAfter(n + 1, d0, u, io.states, s0))
  {
    hide WatchesFit, Watched, GroupJournal, InitialView, NextView, GroupVerified, CheckedBeforeWriting, Prechecked,
         WritesUpTo, StatesAfter, StatesSince, GroupStates, Accounted, CopiesDone;
    ghost var t, j, before := io.trace, io.journal, io.states;
    ok, wrote := CommitGroup(io, GroupOf(u, n), view);
    assert io.journal[j0..] == j[j0..] + io.journal[|j|..];
    if old(io.pending == [] && io.durable == Milestone(d0, u, n) && StatesAfter(n, d0, u, io.states, s0)) {
      TurnStates(d0, u, n, before, io.states, s0, ok);
    }
    if ok {
      TurnDone(n, u, mbr, j[j0..], t, io.trace, from, view, GroupOf(u, n));
    } else {
      TurnStopped(n, u, mbr, j[j0..], io.journal[|j|..], t, io.trace, from, view, GroupOf(u, n));
      JournalNonempty(n, u, mbr, j[j0..], t, from, view);
    }
  }

  lemma JournalNonempty(n: int, u: Update, mbr: Bytes, j: seq<Event>, t: seq<Event>, from: int, view: seq<Watch>)
    requires SectorOk(u.before.sector) && 0 <= n < 2 && CopiesDone(n, u, mbr, j, t, from, view)
    ensures n > 0 <==> j != []
  {
  }

  /** Durable contents after n verified copies. */
  ghost function Milestone(d: Bytes, u: Update, n: int): Bytes
    requires SectorOk(u.before.sector) && GroupFits(|d|, Backups(u)) && GroupFits(|d|, Primaries(u))
  {
    if n <= 0 then d
    else if n == 1 then ApplyGroup(d, Backups(u))
    else ApplyGroup(ApplyGroup(d, Backups(u)), Primaries(u))
  }

  /** The states of one turn continue those of the run. */
  lemma TurnStates(d: Bytes, u: Update, n: int, a: seq<DiskState>, b: seq<DiskState>, from: int, ok: bool)
    requires SectorOk(u.before.sector) && GroupFits(|d|, Backups(u)) && GroupFits(|d|, Primaries(u))
    requires 0 <= n < 2 && a <= b && StatesAfter(n, d, u, a, from)
    requires GroupStates(Milestone(d, u, n), GroupOf(u, n), b, |a|)
    requires ok ==> |b| > |a| && b[|b| - 1] == DiskState(Milestone(d, u, n + 1), [])
    ensures StatesSince(d, u, b, from)
    ensures ok ==> StatesAfter(n + 1, d, u, b, from)
  {
    hide ApplyGroup, During, Backups, Primaries;
    if n == 0 {
      BackupStates(d, u, a, b, from);
      if ok {
        BackupFlushed(d, u, b, from);
      }
    } else {
      PrimaryStates(d, u, a, b, from);
    }
  }

  /** While the first group is written. */
  lemma BackupStates(d: Bytes, u: Update, a: seq<DiskState>, b: seq<DiskState>, from: int)
    requires SectorOk(u.before.sector) && GroupFits(|d|, Backups(u)) && GroupFits(|d|, Primaries(u))
    requires |a| == from && a <= b && GroupStates(d, Backups(u), b, from)
    ensures StatesSince(d, u, b, from)
  {
    hide ApplyGroup, Backups, Primaries;
    var n := |b| - 1;
    if |b| > from && !During(d, Backups(u), b[n]) {
      assert InPhases(d, u, b, from, n);
    } else {
      assert InPhases(d, u, b, from, |b|);
    }
  }

  lemma BackupFlushed(d: Bytes, u: Update, b: seq<DiskState>, from: int)
    requires SectorOk(u.before.sector) && GroupFits(|d|, Backups(u)) && GroupFits(|d|, Primaries(u))
    requires 0 <= from < |b| && GroupStates(d, Backups(u), b, from)
    requires b[|b| - 1] == DiskState(ApplyGroup(d, Backups(u)), [])
    ensures InPhases(d, u, b, from, |b| - 1)
  {
    hide ApplyGroup, Backups, Primaries;
  }

  /** While the second group is written. */
  lemma PrimaryStates(d: Bytes, u: Update, a: seq<DiskState>, b: seq<DiskState>, from: int)
    requires SectorOk(u.before.sector) && GroupFits(|d|, Backups(u)) && GroupFits(|d|, Primaries(u))
    requires a <= b && InPhases(d, u, a, from, |a| - 1)
    requires GroupStates(ApplyGroup(d, Backups(u)), Primaries(u), b, |a|)
    ensures StatesSince(d, u, b, from)
  {
    hide ApplyGroup, Backups, Primaries, During;
    var cut := |a| - 1;
    forall i | from <= i < |b|
      ensures RunState(d, Backups(u), Primaries(u), b[i], cut <= i)
    {
      assert i < |a| ==> a[i] == b[i];
    }
    assert b[cut] == a[cut];
    assert InPhases(d, u, b, from, cut);
  }

  /** The last phase: read the finished table twice, compare it with the plan, ask the guard once more. */
  method VerifyCommit(o: Oracles, io: BlockDevice, device: Device, sector: int, p: Proposal, guid: Guid, proof: Digest,
                      u: Update, mbr: Bytes, view: seq<Watch>, ghost from: nat, ghost j0: nat)
    returns (r: CommitResult)
    requires io.Valid() && device.size == io.size && SectorOk(sector)
    requires u.before.device == device && u.before.sector == sector
    requires j0 <= |io.journal| && CopiesDone(2, u, mbr, io.journal[j0..], io.trace, from, view)
    modifies io`trace, io`faults
    ensures io.Valid() && io.SameDisk() && old(io.trace) <= io.trace
    ensures old(io.faults) <= io.faults && (r.Committed? ==> io.faults == old(io.faults))
    ensures r.Committed? <==> |io.trace| > |old(io.trace)| && io.trace[|io.trace| - 1] == Guard(true)
    ensures io.exclusive && io.faults == old(io.faults) ==>
              (r.Committed? <==> Passes(o, p, guid, proof, io.View(), device, sector, LayoutOf(u.plan)))
    ensures Accounted(r, u, mbr, io.journal[j0..], io.trace, from)
    ensures r.Committed? ==> JustWitnessed(o, p, guid, proof, u, r.snapshot, io.trace, from)
    ensures r.Committed? && io.exclusive ==>
              ReadNtfs(o, ImageReader(io.View()), device, sector, LayoutOf(u.plan))
              == Some(Observation(r.snapshot, proof))
  {
    hide Observe, VerifyCreatedLayout, GroupVerified, CheckedBeforeWriting, ReadMetadata, ReadInTwoPasses, ImageReader,
         JustWitnessed, WritesUpTo, InitialView, NextView, FullJournal;
    ghost var t := io.trace;
    PrefixOfItself(u);
    var final := VerifiedNtfsSnapshot(o, io, device, sector, LayoutOf(u.plan));
    ghost var read := io.trace;
    if final.None? {
      SeenGrows(2, u, mbr, io.journal[j0..], t, io.trace, from, view);
      return CommitFailed(CommitError(Verify, true, 2));
    }
    var result := VerifyLayout(o, p, guid, proof, final.value.0);
    if result.None? {
      SeenGrows(2, u, mbr, io.journal[j0..], t, io.trace, from, view);
      return CommitFailed(CommitError(Verify, true, 2));
    }
    var granted := io.CheckGuard();
    SeenGrows(2, u, mbr, io.journal[j0..], t, io.trace, from, view);
    if granted != Some(true) {
      return CommitFailed(CommitError(Verify, true, 2));
    }
    ResultIsObserved(o, p, guid, proof, final.value.1, device, sector, LayoutOf(u.plan), final.value.0, result.value);
    CommitWitnessed(o, p, guid, proof, u, result.value, t, read, io.trace, from, final.value.1);
    return Committed(result.value);
  }

  /** What the last phase reads on this image passes the layout check. */
  ghost predicate Passes(o: Oracles, p: Proposal, guid: Guid, proof: Digest, img: Bytes, device: Device, sector: int,
                         layout: Layout)
  {
    var seen := ReadNtfs(o, ImageReader(img), device, sector, layout);
    seen.Some? && VerifyCreatedLayout(o, p, guid, proof, seen.value).Some?
  }

  lemma PrefixOfItself(u: Update)
    requires SectorOk(u.before.sector)
    ensures JournalPrefix(FullJournal(u), FullJournal(u)) && |FullJournal(u)| == 6
  {
  }

  /** The layout check returns the inventory it was shown, with the approved proof. */
  lemma ResultIsObserved(o: Oracles, p: Proposal, guid: Guid, proof: Digest, m: Metadata, device: Device, sector: int,
                         layout: Layout, seen: Observation, result: Snapshot)
    requires Shaped(m, sector) && Observe(o, m, device, sector, layout) == Some(seen)
    requires VerifyCreatedLayout(o, p, guid, proof, seen) == Some(result)
    ensures seen == Observation(result, proof)
  {
    hide NtfsShrinkPlan, ExpectedParts, FreshGuid, Normal, Normalize, ProofPreimage, BindingOk;
    NormalizeIsNormal(o, seen.snapshot);
    assert Normal(o, seen.snapshot);
  }

  lemma CommitWitnessed(o: Oracles, p: Proposal, guid: Guid, proof: Digest, u: Update, result: Snapshot,
                        t: seq<Event>, read: seq<Event>, trace: seq<Event>, from: int, m: Metadata)
    requires SectorOk(u.before.sector) && 0 <= from <= |t| && t <= read && trace == read + [Guard(true)]
    requires GroupVerified(t, from, |t|, Backups(u)) && GroupVerified(t, from, |t|, Primaries(u))
    requires ReadInTwoPasses(o, read, |t|, u.before.device, u.before.sector, LayoutOf(u.plan),
                             Observation(result, proof), m)
    requires VerifyCreatedLayout(o, p, guid, proof, Observation(result, proof)) == Some(result)
    ensures JustWitnessed(o, p, guid, proof, u, result, trace, from)
  {
    hide GroupVerified, ReadInTwoPasses, VerifyCreatedLayout;
    VerifiedInLonger(t, trace, from, |t|, Backups(u));
    VerifiedInLonger(t, trace, from, |t|, Primaries(u));
    assert trace[..|read|] == read;
    assert WitnessedAt(o, p, guid, proof, u, result, trace, from, |t|, |read|, m);
  }
}
