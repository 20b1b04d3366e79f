/** Filesystem resize, then the table commit: one attempt, with an error that never understates. */
module Transaction {
  import opened Bytes
  import opened Gpt
  import opened ShrinkPlan
  import opened Images
  import opened Disk
  import opened TableIo
  import opened Commit
  import opened GptCommit
  import opened Outcome
  import opened Machine

  datatype MetadataCommit = MetadataCommit(snapshot: Snapshot, originalBoot: Bytes, filesystem: Filesystem)

  /** A commit, a transaction error, or any other exception. */
  datatype ResizeResult = Resized(commit: MetadataCommit) | ResizeFailed(error: TransactionError) | ResizeRaised

  /** The planned events attempted so far. */
  ghost predicate AsPlanned(run: Option<(Update, Bytes)>, j: seq<Event>) {
    j != [] ==> run.Some? && SectorOk(run.value.0.before.sector) && JournalPrefix(j, FullJournal(run.value.0))
  }

  /** How many copies are verified when an error of this phase is raised. */
  function CopiesIn(p: Phase): int {
    match p
    case TableStep(step) => if step.Verify? then 2 else if step.Primary? then 1 else 0
    case Cleanup | MetadataCommitted => 2
    case KernelClose | KernelIdentity | KernelReread | KernelReady | KernelSource | KernelCleanup => 2
    case _ => 0
  }

  /** The phases a run can stop in, each with the irreversible steps and table events that lie
      before it; three of them are failing closes. */
  predicate PhaseFits(e: TransactionError, steps: nat, events: nat) {
    match e.phase
    case Preparing => steps == 0 && events == 0
    case Native => steps <= 3 && events == 0
    case Filesystem => 3 <= steps <= 4 && events == 0
    case TableStep(step) =>
      steps == 4 && (match step
                     case Prepare => events == 0
                     case Backup => events <= 3
                     case Primary => 3 <= events <= 6
                     case Verify => events == 6)
    case MetadataCommitted | KernelIdentity => steps == 4 && events == 6
    case KernelClose => steps == 4 && events == 6 && e.cleanupFailed
    case KernelReread | KernelReady | KernelSource => steps == 5 && events == 6
    case KernelCleanup => steps == 5 && events == 6 && e.cleanupFailed
    case Cleanup => 4 <= steps <= 5 && events == 6 && e.cleanupFailed
    case _ => false
  }

  /** Copies claimed as verified really were written in full, flushed and read back. */
  ghost predicate CopiesReal(n: int, run: Option<(Update, Bytes)>, trace: seq<Event>, from: int) {
    n > 0 ==>
      && run.Some? && SectorOk(run.value.0.before.sector)
      && GroupVerified(trace, from, |trace|, Backups(run.value.0))
      && (n > 1 ==> GroupVerified(trace, from, |trace|, Primaries(run.value.0)))
  }

  /** The error reports exactly what happened: where the run stopped, whether the child was
      started and table writes were attempted, and how many copies are verified. */
  ghost predicate ExactProgress(e: TransactionError, steps: seq<Step>, j: seq<Event>, run: Option<(Update, Bytes)>,
                        trace: seq<Event>, from: int)
  {
    && PhaseFits(e, |steps|, |j|) && AsPlanned(run, j)
    && (e.sourceMayHaveChanged <==> steps != [])
    && (e.gptWriteStarted <==> j != [])
    && e.verifiedGptCopies == CopiesIn(e.phase) && CopiesReal(e.verifiedGptCopies, run, trace, from)
    && (e.verifiedGptCopies == 2 ==> Finished(run, j, trace, from))
  }

  /** Such an error is one the consumer admits. */
  lemma ExactIsConsistent(e: TransactionError, steps: seq<Step>, j: seq<Event>, run: Option<(Update, Bytes)>,
                          trace: seq<Event>, from: int)
    requires ExactProgress(e, steps, j, run, trace, from)
    ensures Consistent(e) && KnownPhase(e.phase)
  {
    hide CopiesReal, AsPlanned, Finished;
  }

  /** Table writes only after the native child finished alone, the source was synced and inspected. */
  ghost predicate Ordered(steps: seq<Step>, at: nat, j: seq<Event>) {
    && (steps <= StepsBeforeTable(at))
    && (j != [] ==> steps == StepsBeforeTable(at))
  }

  /** The table commit finished: both copies, in order. */
  ghost predicate Finished(run: Option<(Update, Bytes)>, j: seq<Event>, trace: seq<Event>, from: int)
  {
    && run.Some? && SectorOk(run.value.0.before.sector)
    && j == FullJournal(run.value.0) && CopiesReal(2, run, trace, from)
  }

  /** The result of a successful commit: the writes were justified and the table was read back. */
  ghost predicate Proven(o: Oracles, p: Proposal, guid: Guid, proof: Digest, run: Option<(Update, Bytes)>,
                         result: Snapshot, trace: seq<Event>, from: int)
  {
    && run.Some? && Justified(o, p, guid, proof, run.value.0)
    && Witnessed(o, p, guid, proof, run.value.0, result, trace, from)
  }

  /** And what it left on the disk. */
  ghost predicate Stored(o: Oracles, proof: Digest, run: Option<(Update, Bytes)>, result: Snapshot, d: Bytes,
                         clean: bool, exclusive: bool, now: DiskState)
  {
    run.Some? && Installed(o, proof, run.value.0, result, d, clean, exclusive, now)
  }

  lemma ProvenNow(o: Oracles, p: Proposal, guid: Guid, proof: Digest, run: Option<(Update, Bytes)>,
                  result: Snapshot, trace: seq<Event>, from: int, earlier: int)
    requires run.Some? && Justified(o, p, guid, proof, run.value.0) && 0 <= earlier <= from
    requires Witnessed(o, p, guid, proof, run.value.0, result, trace, from)
    ensures Proven(o, p, guid, proof, run, result, trace, earlier)
  {
    hide Justified, Witnessed;
    WitnessedGrows(o, p, guid, proof, run.value.0, result, trace, trace, from, earlier);
  }

  lemma ProvenGrows(o: Oracles, p: Proposal, guid: Guid, proof: Digest, run: Option<(Update, Bytes)>,
                    result: Snapshot, a: seq<Event>, b: seq<Event>, from: int, earlier: int)
    requires Proven(o, p, guid, proof, run, result, a, from) && a <= b && 0 <= earlier <= from
    ensures Proven(o, p, guid, proof, run, result, b, earlier)
  {
    hide Justified, Witnessed;
    WitnessedGrows(o, p, guid, proof, run.value.0, result, a, b, from, earlier);
  }

  /** Without a commit the disk has passed through no new state; with one on a clean, exclusively
      owned disk, every crash in every new state leaves a complete copy of the table. */
  ghost predicate Protected(o: Oracles, guid: Guid, run: Option<(Update, Bytes)>, d: Bytes, clean: bool,
                            states: seq<DiskState>, from: int)
  {
    && (run.None? ==> |states| == from)
    && (run.Some? && clean ==> ImageOf(d, run.value.0.before) && CrashSafeFrom(o, run.value.0, guid, d, states, from))
  }

  /** What one call did: steps, journal and trace since it began. */
  ghost predicate Since(host: Host, log0: seq<Step>, j0: seq<Event>, t0: seq<Event>)
    reads host, host.disk
  {
    log0 <= host.log && j0 <= host.disk.journal && t0 <= host.disk.trace
  }

  lemma VerifiedFrom(trace: seq<Event>, from: int, lo: int, n: int, run: Option<(Update, Bytes)>)
    requires 0 <= from <= lo && CopiesReal(n, run, trace, lo)
    ensures CopiesReal(n, run, trace, from)
  {
    if n > 0 {
      GroupEarlier(trace, from, lo, |trace|, Backups(run.value.0));
      if n > 1 {
        GroupEarlier(trace, from, lo, |trace|, Primaries(run.value.0));
      }
    }
  }

  lemma FullJournalNonempty(u: Update)
    requires SectorOk(u.before.sector)
    ensures FullJournal(u) != []
  {
  }

  /** Preparation: both descriptors bound, plan and boot sector read, target prepared, plan read again. */
  method PrepareResize(o: Oracles, host: Host, device: Device, sector: int, p: Proposal, guid: Guid, proof: Digest)
    returns (boot: Option<Bytes>)
    requires host.Valid() && device.size == host.disk.size
    requires Normalize(o, p.snapshot).Some? ==> p.snapshot.device == device
    modifies host`faults, host.disk`trace, host.disk`faults
    ensures host.Valid() && host.disk.SameDisk() && old(host.disk.trace) <= host.disk.trace
    ensures host.Onward() && (boot.Some? ==> host.Calm())
    ensures host.disk.exclusive && host.Calm() ==> (boot.Some? <==> Updatable(o, p, guid, proof, host.disk.View()))
  {
    hide Justified, ImageReader, Overlay, Fits, Normalize;
    var bound := host.Check();
    if !bound {
      return None;
    }
    var patches := NtfsGptUpdatePlan(o, host.disk, p, guid, proof);
    if patches.None? {
      return None;
    }
    var original: Bytes := *;
    var prepared := host.Check();
    if !prepared {
      return None;
    }
    bound := host.Check();
    if !bound {
      return None;
    }
    var again := NtfsGptUpdatePlan(o, host.disk, p, guid, proof);
    if host.disk.exclusive && again.Some? {
      OneUpdate(o, p, guid, proof, host.disk.View(), patches.value, again.value);
    }
    if again != patches {
      return None;
    }
    return Some(original);
  }

  /** `resize_and_commit_ntfs`. The ghost result names the update the commit justified, if any. */
  method ResizeAndCommit(o: Oracles, host: Host, device: Device, sector: int, p: Proposal, guid: Guid, proof: Digest,
                         reader: int, writer: int)
    returns (r: ResizeResult, ghost run: Option<(Update, Bytes)>)
    requires host.Valid() && device.size == host.disk.size
    requires reader in host.open && writer in host.open
    modifies host, host.disk
    ensures host.Valid() && host.open == old(host.open) && host.sources == old(host.sources)
    ensures host.Onward() && host.polls == old(host.polls)
    ensures r.Resized? ==> host.Calm() && host.figures == old(host.figures) + [r.commit.filesystem]
    ensures host.disk.exclusive && old(host.disk.pending) == [] && host.Calm() ==>
              (r.Resized? <==> Committable(o, device, sector, p, guid, proof, old(host.disk.durable)))
    ensures Since(host, old(host.log), old(host.disk.journal), old(host.disk.trace))
    ensures Ordered(host.log[|old(host.log)|..], |old(host.disk.journal)|,
                    host.disk.journal[|old(host.disk.journal)|..])
    ensures r.Resized? ==>
              && Finished(run, host.disk.journal[|old(host.disk.journal)|..], host.disk.trace, |old(host.disk.trace)|)
              && Proven(o, p, guid, proof, run, r.commit.snapshot, host.disk.trace, |old(host.disk.trace)|)
    ensures r.Resized? ==>
              Stored(o, proof, run, r.commit.snapshot, old(host.disk.durable), old(host.disk.pending) == [],
                     host.disk.exclusive, DiskState(host.disk.durable, host.disk.pending))
    ensures r.ResizeFailed? ==>
              ExactProgress(r.error, host.log[|old(host.log)|..], host.disk.journal[|old(host.disk.journal)|..], run,
                    host.disk.trace, |old(host.disk.trace)|)
    ensures host.failures != old(host.failures) ==> r.ResizeFailed? && r.error.cleanupFailed
    ensures !r.ResizeRaised?
    ensures Protected(o, guid, run, old(host.disk.durable), host.disk.exclusive && old(host.disk.pending) == [],
                      host.disk.states, |old(host.disk.states)|)
  {
    hide CrashSafeFrom, ImageOf, Normalize, Proven, Stored, ExactProgress, Finished, Ordered, Fits, Overlay;
    var readCopy, writeCopy, commit, progress;
    readCopy, writeCopy, commit, progress, run :=
      ResizeOnCopies(o, host, device, sector, p, guid, proof, reader, writer);
    var error := CloseCopies(host, readCopy, writeCopy, commit.Some?, progress);
    if error.Some? {
      StillExact(progress, error.value, host.log[|old(host.log)|..], host.disk.journal[|old(host.disk.journal)|..], run,
                 host.disk.trace, |old(host.disk.trace)|);
      return ResizeFailed(error.value), run;
    }
    return Resized(commit.value), run;
  }

  /** The body of `resize_and_commit_ntfs`: admission, the duplicates, and the work on them. */
  method ResizeOnCopies(o: Oracles, host: Host, device: Device, sector: int, p: Proposal, guid: Guid, proof: Digest,
                        reader: int, writer: int)
    returns (readCopy: Option<int>, writeCopy: Option<int>, commit: Option<MetadataCommit>,
             progress: TransactionError, ghost run: Option<(Update, Bytes)>)
    requires host.Valid() && device.size == host.disk.size
    requires reader in host.open && writer in host.open
    modifies host, host.disk
    ensures host.Valid()
    ensures host.Onward() && host.polls == old(host.polls)
    ensures commit.Some? ==> host.Calm() && host.figures == old(host.figures) + [commit.value.filesystem]
    ensures host.disk.exclusive && old(host.disk.pending) == [] && host.Calm() ==>
              (commit.Some? <==> Committable(o, device, sector, p, guid, proof, old(host.disk.durable)))
    ensures Held(readCopy) !! old(host.open) && Held(writeCopy) !! old(host.open) + Held(readCopy)
    ensures host.open == old(host.open) + Held(readCopy) + Held(writeCopy)
    ensures old(host.sources) <= host.sources <= old(host.sources) + Held(readCopy) + Held(writeCopy)
    ensures Since(host, old(host.log), old(host.disk.journal), old(host.disk.trace))
    ensures Ordered(host.log[|old(host.log)|..], |old(host.disk.journal)|,
                    host.disk.journal[|old(host.disk.journal)|..])
    ensures ExactProgress(progress, host.log[|old(host.log)|..], host.disk.journal[|old(host.disk.journal)|..], run,
                          host.disk.trace, |old(host.disk.trace)|)
    ensures host.failures != old(host.failures) ==> progress.cleanupFailed
    ensures commit.Some? ==>
              && progress.phase == MetadataCommitted
              && Finished(run, host.disk.journal[|old(host.disk.journal)|..], host.disk.trace, |old(host.disk.trace)|)
              && Proven(o, p, guid, proof, run, commit.value.snapshot, host.disk.trace, |old(host.disk.trace)|)
    ensures commit.Some? ==>
              Stored(o, proof, run, commit.value.snapshot, old(host.disk.durable), old(host.disk.pending) == [],
                     host.disk.exclusive, DiskState(host.disk.durable, host.disk.pending))
    ensures Protected(o, guid, run, old(host.disk.durable), host.disk.exclusive && old(host.disk.pending) == [],
                      host.disk.states, |old(host.disk.states)|)
  {
    ghost var log0, j0, t0 := host.log, host.disk.journal, host.disk.trace;
    hide CrashSafeFrom, ImageOf, Normalize, Proven, Stored, ExactProgress, Finished, Ordered, Fits, Overlay,
         NtfsShrinkPlan, Committable, Updatable;
    CommittableIsUpdatable(o, device, sector, p, guid, proof, host.disk.durable);
    readCopy, writeCopy, commit, run := None, None, None, None;
    progress := TransactionError(Preparing, false, false, 0, false);
    assert host.log[|log0|..] == [] && host.disk.journal[|j0|..] == [];
    var ready;
    readCopy, writeCopy, ready := AdmitAndOpen(o, host, device, sector, p, reader, writer);
    NothingYet(run, host.disk.trace, |t0|, |j0|);
    if !ready {
      return;
    }
    ghost var t1 := host.disk.trace;
    commit, progress, run := ResizeThenCommit(o, host, device, sector, p, guid, proof, writeCopy.value);
    FromEarlier(progress, host.log[|log0|..], host.disk.journal[|j0|..], run, host.disk.trace, |t0|, |t1|);
    if commit.Some? {
      ProvenGrows(o, p, guid, proof, run, commit.value.snapshot, host.disk.trace, host.disk.trace, |t1|, |t0|);
    }
  }

  /** Cleanup may change an error's phase to "cleanup" or raise its flag, never its progress. */
  lemma StillExact(e: TransactionError, f: TransactionError, steps: seq<Step>, j: seq<Event>,
                   run: Option<(Update, Bytes)>, trace: seq<Event>, from: int)
    requires ExactProgress(e, steps, j, run, trace, from)
    requires || (f == e.(cleanupFailed := f.cleanupFailed) && (e.cleanupFailed ==> f.cleanupFailed))
             || (e.phase == MetadataCommitted && f == e.(phase := Cleanup, cleanupFailed := true))
    ensures ExactProgress(f, steps, j, run, trace, from)
  {
    hide CopiesReal, AsPlanned, Finished;
  }

  lemma NothingYet(run: Option<(Update, Bytes)>, trace: seq<Event>, from: int, at: nat)
    ensures ExactProgress(TransactionError(Preparing, false, false, 0, false), [], [], run, trace, from)
    ensures Ordered([], at, [])
  {
  }

  /** The attempt between opening and closing the duplicates. */
  method ResizeThenCommit(o: Oracles, host: Host, device: Device, sector: int, p: Proposal, guid: Guid, proof: Digest,
                          writeCopy: int)
    returns (commit: Option<MetadataCommit>, progress: TransactionError, ghost run: Option<(Update, Bytes)>)
    requires host.Valid() && device.size == host.disk.size && writeCopy in host.open
    requires Normalize(o, p.snapshot).Some? ==> p.snapshot.device == device
    modifies host, host.disk
    ensures host.Valid() && host.open == old(host.open) && host.sources == old(host.sources)
    ensures host.Onward() && host.polls == old(host.polls)
    ensures commit.Some? ==> host.Calm() && host.figures == old(host.figures) + [commit.value.filesystem]
    ensures host.disk.exclusive && old(host.disk.pending) == [] && host.Calm() ==>
              (commit.Some? <==> Committable(o, device, sector, p, guid, proof, old(host.disk.durable)))
    ensures Since(host, old(host.log), old(host.disk.journal), old(host.disk.trace))
    ensures Ordered(host.log[|old(host.log)|..], |old(host.disk.journal)|,
                    host.disk.journal[|old(host.disk.journal)|..])
    ensures ExactProgress(progress, host.log[|old(host.log)|..], host.disk.journal[|old(host.disk.journal)|..], run,
                  host.disk.trace, |old(host.disk.trace)|)
    ensures host.failures != old(host.failures) ==> progress.cleanupFailed
    ensures commit.Some? ==> progress.phase == MetadataCommitted
    ensures commit.Some? ==>
              && Finished(run, host.disk.journal[|old(host.disk.journal)|..], host.disk.trace, |old(host.disk.trace)|)
              && Proven(o, p, guid, proof, run, commit.value.snapshot, host.disk.trace, |old(host.disk.trace)|)
    ensures commit.Some? ==>
              Stored(o, proof, run, commit.value.snapshot, old(host.disk.durable), old(host.disk.pending) == [],
                     host.disk.exclusive, DiskState(host.disk.durable, host.disk.pending))
    ensures Protected(o, guid, run, old(host.disk.durable), host.disk.exclusive && old(host.disk.pending) == [],
                      host.disk.states, |old(host.disk.states)|)
  {
    ghost var log0, j0, t0 := host.log, host.disk.journal, host.disk.trace;
    hide ImageOf, NtfsShrinkPlan, Normalize, Proven, Stored, Accounted, CrashSafeFrom, ExactProgress, Ordered, Finished,
         StepsBeforeTable, Committable, Updatable, Fits, Overlay, PhaseFits;
    run, commit := None, None;
    CleanView(host.disk);
    CommittableIsUpdatable(o, device, sector, p, guid, proof, host.disk.durable);
    var resized;
    resized, progress := PrepareAndResize(o, host, device, sector, p, guid, proof, writeCopy);
    assert host.disk.journal[|j0|..] == [];
    if resized.Some? {
      commit, progress, run := CommitResized(o, host, device, sector, p, guid, proof, resized.value.0, resized.value.1,
                                             progress.cleanupFailed, host.log[|log0|..], |j0|, t0);
    }
  }

  /** Everything before the table: the disk is only read. */
  method PrepareAndResize(o: Oracles, host: Host, device: Device, sector: int, p: Proposal, guid: Guid, proof: Digest,
                          writeCopy: int)
    returns (resized: Option<(Bytes, Filesystem)>, progress: TransactionError)
    requires host.Valid() && device.size == host.disk.size && writeCopy in host.open
    requires Normalize(o, p.snapshot).Some? ==> p.snapshot.device == device
    modifies host, host.disk`trace, host.disk`faults
    ensures host.Valid() && host.open == old(host.open) && host.sources == old(host.sources)
    ensures host.disk.SameDisk() && old(host.disk.trace) <= host.disk.trace && old(host.log) <= host.log
    ensures host.Onward() && host.polls == old(host.polls)
    ensures host.failures != old(host.failures) ==> progress.cleanupFailed
    ensures ExactProgress(progress, host.log[|old(host.log)|..], [], None, host.disk.trace, |old(host.disk.trace)|)
    ensures Ordered(host.log[|old(host.log)|..], |host.disk.journal|, [])
    ensures resized.Some? ==>
              && host.Calm() && host.figures == old(host.figures) + [resized.value.1] && !progress.cleanupFailed
              && host.log[|old(host.log)|..] == StepsBeforeTable(|host.disk.journal|)
    ensures host.disk.exclusive && host.Calm() ==> (resized.Some? <==> Updatable(o, p, guid, proof, host.disk.View()))
  {
    ghost var log0, at := host.log, |host.disk.journal|;
    hide NtfsShrinkPlan, Normalize, ExactProgress, Ordered, StepsBeforeTable, Updatable, Fits, Overlay, PhaseFits;
    resized, progress := None, TransactionError(Preparing, false, false, 0, false);
    assert host.log[|log0|..] == [];
    var boot := PrepareResize(o, host, device, sector, p, guid, proof);
    NothingYet(None, host.disk.trace, |old(host.disk.trace)|, at);
    if boot.Some? {
      var filesystem, phase, changed, cleanupFailed := ResizeSource(host, writeCopy);
      progress := TransactionError(phase, changed, false, 0, cleanupFailed);
      ResizeFacts(progress, host.log[|log0|..], at, None, host.disk.trace, |old(host.disk.trace)|);
      if filesystem.Some? {
        resized := Some((boot.value, filesystem.value));
      }
    }
  }

  lemma CommittableIsUpdatable(o: Oracles, device: Device, sector: int, p: Proposal, guid: Guid, proof: Digest,
                               img: Bytes)
    ensures Committable(o, device, sector, p, guid, proof, img) ==>
              && Updatable(o, p, guid, proof, img)
              && NtfsShrinkPlan(o, p).Planned?
              && Normalize(o, p.snapshot).Some?
              && Normalize(o, p.snapshot).value.device == device && Normalize(o, p.snapshot).value.sector == sector
  {
    hide UpdateOf, NtfsShrinkPlan, Normalize;
    forall u | UpdateOf(o, p, guid, proof, img, u)
      ensures NtfsShrinkPlan(o, p).Planned? && Normalize(o, p.snapshot) == Some(u.before)
    {
      UpdateMeets(o, p, guid, proof, img, u);
    }
  }

  /** The table commit behind a finished resize. */
  method CommitResized(o: Oracles, host: Host, device: Device, sector: int, p: Proposal, guid: Guid, proof: Digest,
                       boot: Bytes, filesystem: Filesystem, cleanupFailed: bool, ghost steps: seq<Step>,
                       ghost at: nat, ghost t0: seq<Event>)
    returns (commit: Option<MetadataCommit>, progress: TransactionError, ghost run: Option<(Update, Bytes)>)
    requires host.Valid() && device.size == host.disk.size
    requires steps == StepsBeforeTable(at) && |host.disk.journal| == at && t0 <= host.disk.trace
    modifies host.disk
    ensures host.Valid() && old(host.disk.journal) <= host.disk.journal && t0 <= host.disk.trace
    ensures host.Onward() && (commit.Some? ==> host.Calm() && commit.value.filesystem == filesystem)
    ensures host.disk.exclusive && old(host.disk.pending) == [] && host.Calm() ==>
              (commit.Some? <==> Committable(o, device, sector, p, guid, proof, old(host.disk.durable)))
    ensures Ordered(steps, at, host.disk.journal[at..])
    ensures ExactProgress(progress, steps, host.disk.journal[at..], run, host.disk.trace, |t0|)
    ensures progress.cleanupFailed == cleanupFailed
    ensures commit.Some? ==>
              && progress.phase == MetadataCommitted
              && Finished(run, host.disk.journal[at..], host.disk.trace, |t0|)
              && Proven(o, p, guid, proof, run, commit.value.snapshot, host.disk.trace, |t0|)
    ensures commit.Some? ==>
              Stored(o, proof, run, commit.value.snapshot, old(host.disk.durable), old(host.disk.pending) == [],
                     host.disk.exclusive, DiskState(host.disk.durable, host.disk.pending))
    ensures Protected(o, guid, run, old(host.disk.durable), host.disk.exclusive && old(host.disk.pending) == [],
                      host.disk.states, |old(host.disk.states)|)
  {
    hide ImageOf, NtfsShrinkPlan, Normalize, Proven, Justified, Witnessed, Installed, StatesSince, Accounted,
         CrashSafeFrom, ExactProgress, Ordered, Finished, StepsBeforeTable, Fits, Overlay, JustWitnessed, Committable;
    ghost var j0, t1 := host.disk.journal, host.disk.trace;
    assert host.disk.journal[at..] == [];
    var result;
    result, run := CommitNtfsGpt(o, host.disk, device, sector, p, guid, proof);
    progress := Progress(result, cleanupFailed);
    CommitFacts(result, cleanupFailed, run, steps, at, host.disk.journal[at..], host.disk.trace, |t0|, |t1|);
    commit := None;
    if result.Committed? {
      commit := Some(MetadataCommit.MetadataCommit(result.snapshot, boot, filesystem));
      JustIsWitnessed(o, p, guid, proof, run.value.0, result.snapshot, host.disk.trace, |t1|);
      ProvenNow(o, p, guid, proof, run, result.snapshot, host.disk.trace, |t1|, |t0|);
    }
  }

  /** The flags the transaction keeps after the commit: both copies, or what the commit's error says. */
  function Progress(result: CommitResult, cleanupFailed: bool): TransactionError {
    match result
    case Committed(_) => TransactionError(MetadataCommitted, true, true, 2, cleanupFailed)
    case CommitFailed(e) => TransactionError(TableStep(e.phase), true, e.writeStarted, e.verifiedCopies, cleanupFailed)
  }

  lemma JustIsWitnessed(o: Oracles, p: Proposal, guid: Guid, proof: Digest, u: Update, result: Snapshot,
                        trace: seq<Event>, from: int)
    requires JustWitnessed(o, p, guid, proof, u, result, trace, from)
    ensures Witnessed(o, p, guid, proof, u, result, trace, from)
  {
    hide WitnessedAt;
  }

  /** Progress after the resize alone. */
  lemma ResizeFacts(e: TransactionError, steps: seq<Step>, at: nat, run: Option<(Update, Bytes)>,
                    trace: seq<Event>, from: int)
    requires steps <= StepsBeforeTable(at) && PhaseFits(e, |steps|, 0) && (e.phase == Native || e.phase.Filesystem?)
    requires e.sourceMayHaveChanged <==> steps != []
    requires !e.gptWriteStarted && e.verifiedGptCopies == 0
    ensures ExactProgress(e, steps, [], run, trace, from) && Ordered(steps, at, [])
  {
  }

  /** What the commit's account says about progress. */
  lemma CommitFacts(result: CommitResult, cleanupFailed: bool, run: Option<(Update, Bytes)>, steps: seq<Step>, at: nat,
                    j: seq<Event>, trace: seq<Event>, from: int, lo: int)
    requires 0 <= from <= lo && steps == StepsBeforeTable(at)
    requires run.None? ==> result == CommitFailed(CommitError(Prepare, false, 0)) && j == []
    requires run.Some? ==> SectorOk(run.value.0.before.sector)
                           && Accounted(result, run.value.0, run.value.1, j, trace, lo)
    requires result.Committed? ==> run.Some?
    ensures ExactProgress(Progress(result, cleanupFailed), steps, j, run, trace, from) && Ordered(steps, at, j)
    ensures result.Committed? ==> Finished(run, j, trace, from)
  {
    if run.Some? {
      FullJournalNonempty(run.value.0);
      VerifiedNeedsWrites(result, run.value.0, j, trace, lo);
      hide GroupVerified, FullJournal, CheckedBeforeWriting;
      VerifiedFrom(trace, from, lo, if result.Committed? then 2 else result.error.verifiedCopies, run);
    }
  }

  lemma VerifiedNeedsWrites(result: CommitResult, u: Update, j: seq<Event>, trace: seq<Event>, lo: int)
    requires SectorOk(u.before.sector) && Truthful(result, j, trace, lo, u)
    ensures result.CommitFailed? && result.error.verifiedCopies > 0 ==> j != []
  {
  }

  /** A later starting point is stronger. */
  lemma FromEarlier(e: TransactionError, steps: seq<Step>, j: seq<Event>, run: Option<(Update, Bytes)>,
                    trace: seq<Event>, from: int, lo: int)
    requires 0 <= from <= lo
    ensures ExactProgress(e, steps, j, run, trace, lo) ==> ExactProgress(e, steps, j, run, trace, from)
    ensures Finished(run, j, trace, lo) ==> Finished(run, j, trace, from)
  {
    hide GroupVerified, FullJournal;
    if CopiesReal(e.verifiedGptCopies, run, trace, lo) {
      VerifiedFrom(trace, from, lo, e.verifiedGptCopies, run);
    }
    if CopiesReal(2, run, trace, lo) {
      VerifiedFrom(trace, from, lo, 2, run);
    }
  }

  /** The native child's steps, as a prefix of all steps before the table. */
  lemma NativePrefix(log0: seq<Step>, log: seq<Step>, at: nat)
    requires log0 <= log && log[|log0|..] <= NativeSteps(at)
    ensures log[|log0|..] <= StepsBeforeTable(at)
    ensures log == log0 <==> log[|log0|..] == []
  {
  }

  /** The checks before any descriptor is duplicated. */
  method AdmitResize(o: Oracles, host: Host, device: Device, sector: int, p: Proposal) returns (ok: bool)
    requires host.Valid()
    modifies host`faults, host.disk`trace, host.disk`faults
    ensures host.Valid() && host.disk.SameDisk() && old(host.disk.trace) <= host.disk.trace
    ensures host.Onward() && (ok ==> host.Calm())
    ensures host.Calm() ==>
              (ok <==> && NtfsShrinkPlan(o, p).Planned? && Normalize(o, p.snapshot).Some?
                       && Normalize(o, p.snapshot).value.device == device
                       && Normalize(o, p.snapshot).value.sector == sector)
    ensures ok ==> Normalize(o, p.snapshot).Some? ==> p.snapshot.device == device
  {
    hide Normalize, NtfsShrinkPlan;
    var bindings := host.Check();
    var normal := NormalizeSnapshot(o, p.snapshot, None);
    var planning := PlanShrink(o, p);
    if !bindings || normal.None? || planning.Refused? || sector != normal.value.sector
       || device != normal.value.device {
      return false;
    }
    var guarded := host.disk.CheckGuard();
    return guarded == Some(true);
  }

  /** The checks, then the duplicates. */
  method AdmitAndOpen(o: Oracles, host: Host, device: Device, sector: int, p: Proposal, reader: int, writer: int)
    returns (readCopy: Option<int>, writeCopy: Option<int>, ok: bool)
    requires host.Valid() && reader in host.open && writer in host.open
    modifies host`next, host`open, host`sources, host`faults, host.disk`trace, host.disk`faults
    ensures host.Valid() && host.disk.SameDisk() && old(host.disk.trace) <= host.disk.trace
    ensures host.Onward() && (ok ==> host.Calm() && writeCopy.Some?)
    ensures host.Calm() ==>
              (ok <==> && NtfsShrinkPlan(o, p).Planned? && Normalize(o, p.snapshot).Some?
                       && Normalize(o, p.snapshot).value.device == device
                       && Normalize(o, p.snapshot).value.sector == sector)
    ensures ok ==> Normalize(o, p.snapshot).Some? ==> p.snapshot.device == device
    ensures Held(readCopy) !! old(host.open) && Held(writeCopy) !! old(host.open) + Held(readCopy)
    ensures host.open == old(host.open) + Held(readCopy) + Held(writeCopy)
    ensures old(host.sources) <= host.sources <= old(host.sources) + Held(readCopy) + Held(writeCopy)
  {
    hide Normalize, NtfsShrinkPlan, Fits, Overlay;
    readCopy, writeCopy := None, None;
    ok := AdmitResize(o, host, device, sector, p);
    if ok {
      readCopy, writeCopy, ok := OpenCopies(host, reader, writer);
    }
  }

  /** The native child and the inspection of what it left: the only way to reach the table. */
  method ResizeSource(host: Host, fd: int)
    returns (filesystem: Option<Filesystem>, phase: Phase, changed: bool, cleanupFailed: bool)
    requires host.Valid() && fd in host.open
    modifies host
    ensures host.Valid() && host.open == old(host.open) && host.sources == old(host.sources)
    ensures host.Onward() && host.polls == old(host.polls)
    ensures filesystem.Some? <==> host.Calm()
    ensures filesystem.Some? ==> host.figures == old(host.figures) + [filesystem.value]
    ensures old(host.log) <= host.log
    ensures host.log[|old(host.log)|..] <= StepsBeforeTable(|host.disk.journal|)
    ensures changed <==> host.log[|old(host.log)|..] != []
    ensures filesystem.Some? ==> changed && !cleanupFailed
                                 && host.log[|old(host.log)|..] == StepsBeforeTable(|host.disk.journal|)
    ensures phase == Native || phase.Filesystem?
    ensures PhaseFits(TransactionError(phase, changed, false, 0, cleanupFailed), |host.log| - |old(host.log)|, 0)
    ensures host.failures != old(host.failures) ==> cleanupFailed
  {
    ghost var log0, at := host.log, |host.disk.journal|;
    phase, changed, cleanupFailed, filesystem := Native, true, false, None;
    var native := RunNativeResize(host, fd);
    if native.NativeFailed? {
      changed, cleanupFailed := native.started, native.cleanupFailed;
      NativePrefix(log0, host.log, at);
      return;
    }
    phase := Phase.Filesystem;
    assert host.log[|log0|..] == StepsBeforeTable(at)[..3];
    var bound := host.Check();
    if !bound {
      return;
    }
    var inspected := host.InspectResized();
    if inspected.None? {
      return;
    }
    assert host.log[|log0|..] == StepsBeforeTable(at);
    bound := host.Check();
    if !bound {
      return;
    }
    filesystem := inspected;
  }

  /** Duplicates of both source descriptors; if the second fails the first is left to be closed. */
  method OpenCopies(host: Host, reader: int, writer: int)
    returns (readCopy: Option<int>, writeCopy: Option<int>, ok: bool)
    requires host.Valid() && reader in host.open && writer in host.open
    modifies host`next, host`open, host`sources, host`faults
    ensures host.Valid() && ok == writeCopy.Some? && host.Onward() && (ok <==> host.Calm())
    ensures Held(readCopy) !! old(host.open) && Held(writeCopy) !! old(host.open) + Held(readCopy)
    ensures host.open == old(host.open) + Held(readCopy) + Held(writeCopy)
    ensures old(host.sources) <= host.sources <= old(host.sources) + Held(readCopy) + Held(writeCopy)
  {
    writeCopy, ok := None, false;
    readCopy := host.Dup(reader);
    if readCopy.None? {
      return;
    }
    writeCopy := host.Dup(writer);
    ok := writeCopy.Some?;
  }

  /** The closing loop: every duplicate is closed once; an earlier error keeps its progress. */
  method CloseCopies(host: Host, readCopy: Option<int>, writeCopy: Option<int>, done: bool, progress: TransactionError)
    returns (r: Option<TransactionError>)
    requires host.Valid() && (readCopy.Some? ==> readCopy.value in host.open)
    requires Held(writeCopy) <= host.open && Held(readCopy) !! Held(writeCopy)
    modifies host`open, host`sources, host`failures
    ensures host.Valid()
    ensures host.open == old(host.open) - Held(readCopy) - Held(writeCopy)
    ensures host.sources == old(host.sources) - Held(readCopy) - Held(writeCopy)
    ensures !done ==> r.Some? && r.value == progress.(cleanupFailed := r.value.cleanupFailed)
                      && (progress.cleanupFailed ==> r.value.cleanupFailed)
    ensures done && r.Some? ==> r.value == progress.(phase := Cleanup, cleanupFailed := true)
    ensures old(host.failures) <= host.failures
    ensures host.failures != old(host.failures) ==> r.Some? && r.value.cleanupFailed
    ensures host.failures == old(host.failures) ==> r == if done then None else Some(progress)
  {
    var cleanup := progress.(phase := Cleanup, cleanupFailed := true);
    r := if done then None else Some(progress);
    r := CloseCopy(host, readCopy, r, cleanup);
    r := CloseCopy(host, writeCopy, r, cleanup);
  }

  /** The descriptor, if there is one. */
  function Held(fd: Option<int>): set<int> {
    if fd.Some? then {fd.value} else {}
  }

  /** One turn of the closing loop: the first error keeps its phase and progress. */
  method CloseCopy(host: Host, copy: Option<int>, error: Option<TransactionError>, progress: TransactionError)
    returns (r: Option<TransactionError>)
    requires host.Valid() && (copy.Some? ==> copy.value in host.open)
    modifies host`open, host`sources, host`failures
    ensures host.Valid()
    ensures host.open == old(host.open) - (if copy.Some? then {copy.value} else {})
    ensures host.sources == old(host.sources) - (if copy.Some? then {copy.value} else {})
    ensures error.Some? ==> r.Some? && r.value.(cleanupFailed := error.value.cleanupFailed) == error.value
                            && (error.value.cleanupFailed ==> r.value.cleanupFailed)
    ensures error.None? ==> r == None || r == Some(progress)
    ensures old(host.failures) <= host.failures
    ensures host.failures == old(host.failures) ==> r == error
    ensures host.failures != old(host.failures) ==>
              r.Some? && (error.Some? || progress.cleanupFailed ==> r.value.cleanupFailed)
  {
    r := error;
    if copy.Some? {
      var closed := host.Close(copy.value);
      if !closed {
        r := Some(if error.None? then progress else error.value.(cleanupFailed := true));
      }
    }
  }
}
