/** The owner of every source descriptor, through the commit and the kernel's re-read. */
module KernelTransition {
  import opened Bytes
  import opened Gpt
  import opened GptReader
  import opened ShrinkPlan
  import opened Preservation
  import opened RoundTrip
  import opened Images
  import opened Disk
  import opened TableIo
  import opened Commit
  import opened GptCommit
  import opened Outcome
  import opened Machine
  import opened Transaction

  datatype State = Opening | Open | Running | Kernel | Ready | Failed | Closed

  datatype Progress = Progress(sourceMayHaveChanged: bool, gptWriteStarted: bool, verifiedGptCopies: int)

  /** All irreversible steps of a complete run, in their only order. The re-read happens
      when both copies are journalled and no source descriptor is held. */
  function AllSteps(at: nat, seen: nat): seq<Step> {
    StepsBeforeTable(at) + [Reread(at + 6, seen, {})]
  }

  /** How much of the trace there was at the re-read. */
  function SeenAtReread(steps: seq<Step>): nat {
    if |steps| == 5 && steps[4].Reread? then steps[4].seen else 0
  }

  /** Both copies were written, flushed and read back within the first events up to `seen`. */
  ghost predicate VerifiedBy(run: Option<(Update, Bytes)>, trace: seq<Event>, from: int, seen: int) {
    && run.Some? && SectorOk(run.value.0.before.sector) && 0 <= from <= seen <= |trace|
    && GroupVerified(trace, from, seen, Backups(run.value.0))
    && GroupVerified(trace, from, seen, Primaries(run.value.0))
  }

  /** A complete run: every step, once and in order, and both copies verified before the re-read. */
  ghost predicate Completed(steps: seq<Step>, at: nat, j: seq<Event>, run: Option<(Update, Bytes)>,
                            trace: seq<Event>, from: int)
  {
    && steps == AllSteps(at, SeenAtReread(steps))
    && Finished(run, j, trace, from)
    && VerifiedBy(run, trace, from, SeenAtReread(steps))
  }

  /** At most one re-read, without any source descriptor, between two points of the trace. */
  ghost predicate OneReread(more: seq<Step>, at: nat, lo: int, hi: int) {
    || more == []
    || (|more| == 1 && more[0].Reread? && more[0] == Reread(at, more[0].seen, {}) && lo <= more[0].seen <= hi)
  }

  /** After the re-read, in a later phase. */
  lemma LaterPhase(more: seq<Step>, at: nat, lo: int, hi: int, later: int, phase: Phase)
    requires more != [] && OneReread(more, at, lo, hi) && hi <= later
    requires phase == KernelReady || phase == KernelSource || phase == KernelCleanup
    ensures OneReread(more, at, lo, later)
    ensures CopiesIn(phase) == 2 && PhaseFits(Fallback(phase, true), 4 + |more|, 6)
  {
  }

  lemma NoReread(at: nat, lo: int, hi: int)
    ensures OneReread([], at, lo, hi)
  {
  }

  lemma VerifiedWider(t1: seq<Event>, t2: seq<Event>, from: int, wider: int, g: Group)
    requires t1 <= t2 && |t1| <= wider <= |t2| && GroupVerified(t1, from, |t1|, g)
    ensures GroupVerified(t2, from, wider, g)
  {
    var f :| FlushedAt(t1, from, |t1|, g, f);
    ReadsGrow(t1, t2, f, |t1|, wider, AfterGroup(g));
    assert FlushedAt(t2, from, wider, g, f);
  }

  lemma CompletedFrom(steps: seq<Step>, at: nat, j: seq<Event>, run: Option<(Update, Bytes)>,
                      trace: seq<Event>, from: int, lo: int)
    requires Completed(steps, at, j, run, trace, lo) && 0 <= from <= lo
    ensures Completed(steps, at, j, run, trace, from)
  {
    hide GroupVerified, FullJournal;
    VerifiedFrom(trace, from, lo, 2, run);
    GroupEarlier(trace, from, lo, SeenAtReread(steps), Backups(run.value.0));
    GroupEarlier(trace, from, lo, SeenAtReread(steps), Primaries(run.value.0));
  }

  lemma CopiesGrow(n: int, run: Option<(Update, Bytes)>, a: seq<Event>, b: seq<Event>, from: int)
    requires a <= b && CopiesReal(n, run, a, from)
    ensures CopiesReal(n, run, b, from)
  {
    if n > 0 {
      VerifiedGrows(a, b, from, Backups(run.value.0));
      VerifiedGrows(a, b, from, Primaries(run.value.0));
    }
  }

  /** The error for an exception that is not a transaction error: its progress is guessed from
      whether there is a commit. */
  function Fallback(phase: Phase, committed: bool): TransactionError {
    TransactionError(phase, committed, committed, if committed then 2 else 0,
                     phase == KernelClose || phase == KernelCleanup)
  }

  // The kernel's view

  /** What a run is to bring about: this inventory on this disk. */
  datatype Goal = Goal(device: Device, sector: int, proposal: Proposal, guid: Guid, proof: Digest, result: Snapshot)

  /** The two slots the table reader binds. */
  ghost function GoalLayout(o: Oracles, g: Goal): Layout
    requires NtfsShrinkPlan(o, g.proposal).Planned?
  {
    Layout(g.proposal.sourceNumber, NtfsShrinkPlan(o, g.proposal).plan.rootNumber)
  }

  /** Between two points of the trace the whole table was read, twice, and passed the layout check
      as the goal. */
  ghost predicate TableSeen(o: Oracles, g: Goal, trace: seq<Event>, lo: int, hi: int) {
    exists at, m :: TableSeenAt(o, g, trace, lo, hi, at, m)
  }

  ghost predicate TableSeenAt(o: Oracles, g: Goal, trace: seq<Event>, lo: int, hi: int, at: int, m: Metadata) {
    && 0 <= lo <= at <= hi <= |trace| && NtfsShrinkPlan(o, g.proposal).Planned?
    && ReadInTwoPasses(o, trace[..hi], at, g.device, g.sector, GoalLayout(o, g), Observation(g.result, g.proof), m)
    && VerifyCreatedLayout(o, g.proposal, g.guid, g.proof, Observation(g.result, g.proof)) == Some(g.result)
  }

  /** The image holds the goal's table. */
  ghost predicate Attained(o: Oracles, g: Goal, img: Bytes) {
    && NtfsShrinkPlan(o, g.proposal).Planned?
    && ReadNtfs(o, ImageReader(img), g.device, g.sector, GoalLayout(o, g)) == Some(Observation(g.result, g.proof))
    && VerifyCreatedLayout(o, g.proposal, g.guid, g.proof, Observation(g.result, g.proof)) == Some(g.result)
  }

  lemma SeenInLonger(o: Oracles, g: Goal, a: seq<Event>, b: seq<Event>, lo: int, hi: int)
    requires TableSeen(o, g, a, lo, hi) && a <= b
    ensures TableSeen(o, g, b, lo, hi)
  {
    hide NtfsShrinkPlan, ReadInTwoPasses, VerifyCreatedLayout;
    var at, m :| TableSeenAt(o, g, a, lo, hi, at, m);
    assert a[..hi] == b[..hi];
    assert TableSeenAt(o, g, b, lo, hi, at, m);
  }

  /** Every poll but the last found a disagreement; the last agreed, and the table had been read
      between the one before it, or the start, and itself. */
  ghost predicate CameToAgree(o: Oracles, g: Goal, polls: seq<Poll>, trace: seq<Event>, from: int) {
    && |polls| > 0 && polls[|polls| - 1].agreed
    && (forall i :: 0 <= i < |polls| - 1 ==> !polls[i].agreed)
    && TableSeen(o, g, trace, if |polls| == 1 then from else polls[|polls| - 2].seen, polls[|polls| - 1].seen)
  }

  /** The kernel came to agree with the table, and agreed again after another reading of it. */
  ghost predicate AgreedTwice(o: Oracles, g: Goal, polls: seq<Poll>, trace: seq<Event>, from: int) {
    && |polls| > 1
    && CameToAgree(o, g, polls[..|polls| - 1], trace, from)
    && polls[|polls| - 1].agreed
    && TableSeen(o, g, trace, polls[|polls| - 2].seen, polls[|polls| - 1].seen)
  }

  /** The first agreement, after nothing but disagreements. */
  lemma FirstAgreement(o: Oracles, g: Goal, a: seq<Poll>, b: seq<Poll>, p0: nat, trace: seq<Event>, from: int,
                       since: int)
    requires p0 <= |a| && forall i :: p0 <= i < |a| ==> !a[i].agreed
    requires since == if |a| == p0 then from else a[|a| - 1].seen
    requires b == a + [Poll(true, |trace|)] && TableSeen(o, g, trace, since, |trace|)
    ensures CameToAgree(o, g, b[p0..], trace, from)
  {
    hide TableSeen;
    assert b[p0..] == a[p0..] + [Poll(true, |trace|)];
  }

  lemma NoneAgreed(polls: seq<Poll>, p0: nat)
    requires p0 <= |polls| && forall i :: p0 <= i < |polls| ==> !polls[i].agreed
    ensures PhaseAgrees(KernelReady, polls[p0..])
  {
  }

  lemma NotAsked(p: Phase)
    requires p != KernelSource && p != KernelCleanup
    ensures PhaseAgrees(p, [])
  {
  }

  lemma OnceAgreed(o: Oracles, g: Goal, a: seq<Poll>, b: seq<Poll>, p0: nat, trace: seq<Event>, from: int)
    requires p0 <= |a| && CameToAgree(o, g, a[p0..], trace, from) && a <= b
    ensures PhaseAgrees(KernelSource, b[p0..]) && PhaseAgrees(KernelCleanup, b[p0..])
  {
    hide TableSeen;
    assert b[p0..][|a| - p0 - 1].agreed;
  }

  /** No phase before the kernel's claims an agreement. */
  lemma EarlyPhase(e: TransactionError, steps: seq<Step>, at: nat, j: seq<Event>, run: Option<(Update, Bytes)>,
                   trace: seq<Event>, from: int)
    requires ExactProgress(e, steps, j, run, trace, from) && Ordered(steps, at, j)
    ensures PhaseAgrees(e.phase, [])
  {
    hide CopiesReal, AsPlanned, Finished;
    assert |steps| <= 4;
  }

  /** One more agreement, after one more reading. */
  lemma SecondAgreement(o: Oracles, g: Goal, a: seq<Poll>, b: seq<Poll>, p0: nat, t1: seq<Event>, t2: seq<Event>,
                        from: int)
    requires p0 <= |a| && CameToAgree(o, g, a[p0..], t1, from) && a[|a| - 1].seen == |t1|
    requires t1 <= t2 && b == a + [Poll(true, |t2|)] && TableSeen(o, g, t2, |t1|, |t2|)
    ensures AgreedTwice(o, g, b[p0..], t2, from)
  {
    hide TableSeen;
    var polls := a[p0..];
    assert b[p0..] == polls + [Poll(true, |t2|)] && (polls + [Poll(true, |t2|)])[..|polls|] == polls;
    SeenInLonger(o, g, t1, t2, if |polls| == 1 then from else polls[|polls| - 2].seen, |t1|);
  }

  /** Both inspections of the resized file system found the same figures. */
  predicate SameFigures(found: seq<Filesystem>) {
    |found| == 2 && found[0] == found[1]
  }

  /** The disk holds the table that was approved for it. */
  ghost predicate Approvable(o: Oracles, device: Device, sector: int, p: Proposal, guid: Guid, proof: Digest,
                             d: Bytes)
  {
    device.size == |d| && Committable(o, device, sector, p, guid, proof, d)
  }

  /** A run is ready only if nothing was refused and both inspections agreed.  On a clean disk of its
      own, with nothing failing at all, it is ready precisely if the disk held the approved table and
      the inspections agreed. */
  ghost predicate ReadyExactly(o: Oracles, exclusive: bool, device: Device, sector: int, p: Proposal, guid: Guid,
                               proof: Digest, ready: bool, m: Moment, n: Moment)
  {
    ReadyBetween(m.tally, n.tally, exclusive && m.now.pending == [],
                 Approvable(o, device, sector, p, guid, proof, m.now.durable), ready)
  }

  predicate ReadyBetween(before: Tally, after: Tally, clean: bool, approved: bool, ready: bool) {
    && after.Follows(before)
    && (ready ==> after.faults == before.faults && after.diskFaults == before.diskFaults
                  && SameFigures(after.figures[|before.figures|..]))
    && (clean && after.CalmSince(before) ==>
          (ready <==> approved && SameFigures(after.figures[|before.figures|..])))
  }

  lemma NotReady(before: Tally, after: Tally, clean: bool, approved: bool)
    requires after.Follows(before) && (clean && after.CalmSince(before) ==> !approved)
    ensures ReadyBetween(before, after, clean, approved, false)
  {
  }

  /** Around a run, in scopes that fail for nothing but a close. */
  lemma ReadyWider(before: Tally, first: Tally, last: Tally, after: Tally, clean: bool, approved: bool, ready: bool)
    requires ReadyBetween(first, last, clean, approved, ready)
    requires first.Follows(before) && first.CalmSince(before) && first.figures == before.figures
    requires after.Follows(last) && after.faults == last.faults && after.diskFaults == last.diskFaults
    requires after.figures == last.figures
    ensures ReadyBetween(before, after, clean, approved, ready) && after.Follows(before)
  {
    assert before.polls <= after.polls && before.figures <= after.figures;
  }

  /** The commit and the kernel phases together. */
  lemma ReadyInTwo(before: Tally, mid: Tally, after: Tally, first: Filesystem, clean: bool, approved: bool, ready: bool)
    requires mid.Follows(before) && mid.CalmSince(before) && mid.figures == before.figures + [first]
    requires after.Follows(mid) && (clean ==> approved)
    requires ready ==> after.CalmSince(mid) && after.figures == mid.figures + [first]
    requires clean && after.CalmSince(mid) ==> (ready <==> after.figures == mid.figures + [first])
    ensures ReadyBetween(before, after, clean, approved, ready)
  {
    var found := after.figures[|before.figures|..];
    assert before.figures <= after.figures && before.polls <= after.polls;
    assert found[0] == first;
    if SameFigures(found) {
      assert found == [first, first];
      assert after.figures == before.figures + found;
    }
  }

  // The accounts of one call, over what has happened between two moments

  ghost predicate OrderedBetween(run: Option<(Update, Bytes)>, m: Moment, n: Moment) {
    && Grew(m, n)
    && InOrder(n.log[|m.log|..], |m.journal|, n.journal[|m.journal|..], run, n.trace, |m.trace|)
  }

  /** The phase tells whether the kernel had come to agree with the table. */
  predicate PhaseAgrees(p: Phase, polls: seq<Poll>) {
    (p == KernelSource || p == KernelCleanup) <==> exists i :: 0 <= i < |polls| && polls[i].agreed
  }

  ghost predicate ExactBetween(e: TransactionError, run: Option<(Update, Bytes)>, m: Moment, n: Moment) {
    && Grew(m, n) && m.tally.polls <= n.tally.polls
    && PhaseAgrees(e.phase, n.tally.polls[|m.tally.polls|..])
    && ExactProgress(e, n.log[|m.log|..], n.journal[|m.journal|..], run, n.trace, |m.trace|)
  }

  ghost predicate ProtectedBetween(o: Oracles, guid: Guid, exclusive: bool, run: Option<(Update, Bytes)>, m: Moment,
                                   n: Moment)
  {
    Protected(o, guid, run, m.now.durable, exclusive && m.now.pending == [], n.states, |m.states|)
  }

  /** What the resize and the table commit have left: the steps before the kernel's, a justified and
      witnessed result, and a disk that holds it. */
  ghost predicate CommittedBetween(o: Oracles, g: Goal, exclusive: bool, run: Option<(Update, Bytes)>, m: Moment,
                                   n: Moment)
  {
    && Grew(m, n)
    && Ordered(n.log[|m.log|..], |m.journal|, n.journal[|m.journal|..])
    && Finished(run, n.journal[|m.journal|..], n.trace, |m.trace|)
    && Proven(o, g.proposal, g.guid, g.proof, run, g.result, n.trace, |m.trace|)
    && Stored(o, g.proof, run, g.result, m.now.durable, m.now.pending == [], exclusive, n.now)
  }

  /** What a ready run has brought about: every step, a result that was justified and witnessed, the
      image on the disk, and a kernel that came to agree after the re-read. */
  ghost predicate Fulfilled(o: Oracles, g: Goal, exclusive: bool, run: Option<(Update, Bytes)>, m: Moment, n: Moment) {
    && Grew(m, n) && m.tally.polls <= n.tally.polls
    && Completed(n.log[|m.log|..], |m.journal|, n.journal[|m.journal|..], run, n.trace, |m.trace|)
    && Proven(o, g.proposal, g.guid, g.proof, run, g.result, n.trace, |m.trace|)
    && Stored(o, g.proof, run, g.result, m.now.durable, m.now.pending == [], exclusive, n.now)
    && AgreedTwice(o, g, n.tally.polls[|m.tally.polls|..], n.trace, SeenAtReread(n.log[|m.log|..]))
  }

  /** Closes and the record of runs leave these accounts as they are. */
  lemma AccountsStay(o: Oracles, guid: Guid, exclusive: bool, e: TransactionError, run: Option<(Update, Bytes)>,
                     m: Moment, n: Moment, later: Moment)
    requires later == n.(tally := later.tally, ended := later.ended) && later.tally.polls == n.tally.polls
    ensures OrderedBetween(run, m, n) ==> OrderedBetween(run, m, later)
    ensures ExactBetween(e, run, m, n) ==> ExactBetween(e, run, m, later)
    ensures ProtectedBetween(o, guid, exclusive, run, m, n) ==> ProtectedBetween(o, guid, exclusive, run, m, later)
  {
    hide InOrder, ExactProgress, Protected;
  }

  /** Recording how a run ended does not change what it brought about. */
  lemma FulfilledStays(o: Oracles, g: Goal, exclusive: bool, run: Option<(Update, Bytes)>, m: Moment, n: Moment,
                       later: Moment)
    requires later == n.(ended := later.ended)
    ensures Fulfilled(o, g, exclusive, run, m, n) ==> Fulfilled(o, g, exclusive, run, m, later)
  {
    hide Completed, Proven, Stored, AgreedTwice, SeenAtReread;
  }

  /** A finished commit leaves what the kernel phases read again. */
  lemma CommittedIsAttained(o: Oracles, g: Goal, run: Option<(Update, Bytes)>, trace: seq<Event>, from: int, d: Bytes,
                            clean: bool, now: DiskState)
    requires Proven(o, g.proposal, g.guid, g.proof, run, g.result, trace, from)
    requires Stored(o, g.proof, run, g.result, d, clean, true, now)
    requires run.value.0.before.device == g.device && run.value.0.before.sector == g.sector
    ensures Fits(|now.durable|, now.pending) && Attained(o, g, Overlay(now.durable, now.pending))
  {
    var u := run.value.0;
    hide ReadNtfs, VerifyCreatedLayout, NtfsShrinkPlan, Normalize, WitnessedAt, FreshGuid, Observe, ImageReader,
         Overlay, Fits, GroupsFit, ImageOf;
    var lo, end, m :| WitnessedAt(o, g.proposal, g.guid, g.proof, u, g.result, trace, from, lo, end, m);
    WitnessPasses(o, g.proposal, g.guid, g.proof, u, g.result, trace, from, lo, end, m);
    PlanPlaced(o, g.proposal, u.before, u.plan);
  }

  lemma WitnessPasses(o: Oracles, p: Proposal, guid: Guid, proof: Digest, u: Update, result: Snapshot,
                      trace: seq<Event>, from: int, lo: int, end: int, m: Metadata)
    requires WitnessedAt(o, p, guid, proof, u, result, trace, from, lo, end, m)
    ensures VerifyCreatedLayout(o, p, guid, proof, Observation(result, proof)) == Some(result)
  {
  }

  class BlockNtfsTransaction {
    const host: Host
    const device: Device
    const sector: int
    const proposal: Proposal
    var fd: Option<int>
    var reader: Option<int>
    var writer: Option<int>
    var renewed: Option<int>
    var state: State
    var progress: Progress
    var cleanupFailed: bool

    ghost function SourceFds(): set<int>
      reads this
    {
      Held(reader) + Held(writer) + Held(renewed)
    }

    /** Every descriptor this object must close. */
    ghost function Owned(): set<int>
      reads this
    {
      Held(fd) + SourceFds()
    }

    ghost predicate Valid()
      reads this, host, host.disk
    {
      && host.Valid() && device.size == host.disk.size && SectorOk(sector)
      && Owned() <= host.open && host.sources <= SourceFds()
      && Held(fd) !! SourceFds()
      && Held(reader) !! Held(writer) && Held(reader) !! Held(renewed) && Held(writer) !! Held(renewed)
    }

    /** An open object holds the disk and both source descriptors. */
    ghost predicate Opened()
      reads this
    {
      state == Open ==> fd.Some? && reader.Some? && writer.Some? && renewed.None?
    }

    constructor (host: Host, device: Device, sector: int, proposal: Proposal)
      requires host.Valid() && device.size == host.disk.size && SectorOk(sector) && host.sources == {}
      ensures Valid() && this.host == host && this.device == device && this.sector == sector
      ensures this.proposal == proposal && Owned() == {} && state == Opening && !cleanupFailed
      ensures progress == Progress.Progress(false, false, 0)
    {
      this.host, this.device, this.sector, this.proposal := host, device, sector, proposal;
      fd, reader, writer, renewed := None, None, None, None;
      state, progress, cleanupFailed := Opening, Progress.Progress(false, false, 0), false;
    }

    /** Forget, then close, each source descriptor; a failing close does not stop the others. */
    method CloseSources() returns (ok: bool)
      requires Valid()
      modifies this`reader, this`writer, this`renewed, host`open, host`sources, host`failures
      ensures old(host.failures) <= host.failures && (ok <==> host.failures == old(host.failures))
      ensures reader == None && writer == None && renewed == None
      ensures host.open == old(host.open - SourceFds()) && host.sources == {}
      ensures Valid()
    {
      ok := true;
      if reader.Some? {
        var closing := reader.value;
        reader := None;
        var closed := host.Close(closing);
        ok := ok && closed;
      }
      if writer.Some? {
        var closing := writer.value;
        writer := None;
        var closed := host.Close(closing);
        ok := ok && closed;
      }
      if renewed.Some? {
        var closing := renewed.value;
        renewed := None;
        var closed := host.Close(closing);
        ok := ok && closed;
      }
    }

    /** `close`: sources first, then the disk; the flag is raised if anything failed. */
    method Close() returns (ok: bool)
      requires Valid()
      modifies this, host`open, host`sources, host`failures
      ensures old(host.failures) <= host.failures && (ok <==> host.failures == old(host.failures))
      ensures Valid() && Owned() == {} && state == Closed && progress == old(progress)
      ensures host.open == old(host.open - Owned()) && host.sources == {}
      ensures cleanupFailed == (old(cleanupFailed) || !ok)
    {
      state := Closed;
      ok := CloseSources();
      if fd.Some? {
        var closing := fd.value;
        fd := None;
        var closed := host.Close(closing);
        ok := ok && closed;
      }
      if !ok {
        cleanupFailed := true;
      }
    }

    /** The constructor of the program: an open object, or everything it opened is closed again. */
    static method Acquire(o: Oracles, host: Host, whole: int, p: Proposal) returns (tx: BlockNtfsTransaction?)
      requires host.Valid() && host.sources == {} && whole in host.open
      modifies host, host.disk`trace, host.disk`faults
      ensures host.Valid() && host.log == old(host.log) && host.disk.SameDisk()
              && old(host.disk.trace) <= host.disk.trace
      ensures host.Onward() && host.figures == old(host.figures) && (tx != null ==> host.Calm())
      ensures host.Calm() ==>
                (tx != null <==> && NtfsShrinkPlan(o, p).Planned? && Normalize(o, p.snapshot).Some?
                                 && p.snapshot.device.size == host.disk.size)
      ensures tx == null ==> host.open == old(host.open) && host.sources == {}
      ensures tx != null ==>
                && fresh(tx) && tx.host == host && tx.Valid() && tx.Opened() && tx.state == Open && tx.proposal == p
                && tx.Owned() !! old(host.open) && host.open == old(host.open) + tx.Owned()
                && tx.progress == Progress.Progress(false, false, 0) && !tx.cleanupFailed
                && Normalize(o, p.snapshot).Some? && p.snapshot.device == tx.device
                && p.snapshot.sector == tx.sector
    {
      hide Normalize, NtfsShrinkPlan, Fits, Overlay;
      var normal := NormalizeSnapshot(o, p.snapshot, None);
      var planning := PlanShrink(o, p);
      if normal.None? || planning.Refused? || normal.value.device.size != host.disk.size {
        return null;
      }
      tx := AcquireOn(host, whole, normal.value.device, normal.value.sector, p);
    }

    /** An object for this device, with everything opened, or nothing left open. */
    static method AcquireOn(host: Host, whole: int, device: Device, sector: int, p: Proposal)
      returns (tx: BlockNtfsTransaction?)
      requires host.Valid() && host.sources == {} && whole in host.open
      requires device.size == host.disk.size && SectorOk(sector)
      modifies host, host.disk`trace, host.disk`faults
      ensures host.Valid() && host.log == old(host.log) && host.disk.SameDisk()
              && old(host.disk.trace) <= host.disk.trace
      ensures host.Onward() && host.figures == old(host.figures) && (tx != null <==> host.Calm())
      ensures tx == null ==> host.open == old(host.open) && host.sources == {}
      ensures tx != null ==>
                && fresh(tx) && tx.host == host && tx.Valid() && tx.Opened() && tx.state == Open && tx.proposal == p
                && tx.Owned() !! old(host.open) && host.open == old(host.open) + tx.Owned()
                && tx.progress == Progress.Progress(false, false, 0) && !tx.cleanupFailed
                && tx.device == device && tx.sector == sector
    {
      hide Fits, Overlay;
      tx := new BlockNtfsTransaction(host, device, sector, p);
      var acquired := tx.OpenAll(whole);
      if !acquired {
        var closed := tx.Close();
        tx := null;
      }
    }

    /** The disk: its descriptor, its geometry, the guard and the kernel's layout. */
    method OpenDisk(whole: int) returns (ok: bool)
      requires Valid() && Owned() == {} && whole in host.open && whole !in host.sources
      modifies this`fd, host`next, host`open, host`sources, host`faults, host`polls, host.disk`trace, host.disk`faults
      ensures Valid() && host.disk.SameDisk() && old(host.disk.trace) <= host.disk.trace
      ensures host.Onward() && (ok <==> host.Calm())
      ensures Owned() == Held(fd) && Held(fd) !! old(host.open) && host.open == old(host.open) + Held(fd)
      ensures ok ==> fd.Some?
    {
      hide Fits, Overlay, BlockDevice.Valid;
      fd := host.Dup(whole);
      ok := fd.Some?;
      if ok {
        ok := host.Check();
      }
      if ok {
        var granted := host.disk.CheckGuard();
        ok := granted == Some(true);
      }
      if ok {
        ok := host.KernelLayout(false);
      }
    }

    /** The acquisitions in order; the first failure stops. */
    method OpenAll(whole: int) returns (ok: bool)
      requires Valid() && Owned() == {} && state == Opening && whole in host.open && whole !in host.sources
      modifies this`fd, this`reader, this`writer, this`state, host`next, host`open, host`sources, host`faults,
               host`tried, host`polls, host.disk`trace, host.disk`faults
      ensures Valid() && host.disk.SameDisk() && old(host.disk.trace) <= host.disk.trace
      ensures host.Onward() && (ok <==> host.Calm())
      ensures Owned() !! old(host.open) && host.open == old(host.open) + Owned()
      ensures ok ==> state == Open && Opened()
    {
      hide Fits, Overlay;
      ok := OpenDisk(whole);
      if ok {
        ok := OpenSources();
      }
    }

    /** The exclusive writable description, which must be the source. */
    method OpenWriter() returns (ok: bool)
      requires Valid() && SourceFds() == {}
      modifies this`writer, host`next, host`open, host`sources, host`faults, host`tried
      ensures Valid() && host.Onward() && (ok <==> host.Calm())
      ensures SourceFds() == Held(writer) && Held(writer) !! old(host.open)
      ensures host.open == old(host.open) + Held(writer)
      ensures ok ==> writer.Some?
    {
      hide Fits, Overlay;
      assert reader.None? && renewed.None?;
      writer := host.Open(Use.Source);
      ok := writer.Some?;
      if ok {
        ok := host.Check();
      }
    }

    /** The exclusive writable description first, then the reader, then the full guard. */
    method OpenSources() returns (ok: bool)
      requires Valid() && fd.Some? && reader.None? && writer.None? && renewed.None?
      modifies this`reader, this`writer, this`state, host`next, host`open, host`sources, host`faults, host`tried,
               host.disk`trace, host.disk`faults
      ensures Valid() && host.disk.SameDisk() && old(host.disk.trace) <= host.disk.trace
      ensures host.Onward() && (ok <==> host.Calm())
      ensures SourceFds() !! old(host.open) && host.open == old(host.open) + SourceFds()
      ensures ok ==> state == Open && Opened()
    {
      hide Fits, Overlay;
      ok := OpenWriter();
      if ok {
        reader := host.Open(Use.Source);
        ok := reader.Some?;
      }
      if ok {
        state := Open;
        var granted := host.disk.CheckGuard();
        ok := granted == Some(true);
      }
    }

    /** The table on disk, read twice, is still exactly the committed one. */
    method ExactTable(o: Oracles, guid: Guid, proof: Digest, expected: Snapshot) returns (final: Option<Snapshot>)
      requires Valid()
      modifies host.disk`trace, host.disk`faults
      ensures Valid() && host.disk.SameDisk() && old(host.disk.trace) <= host.disk.trace
      ensures host.Onward() && (final.Some? ==> host.Calm())
      ensures final.Some? ==>
                final.value == expected
                && TableSeen(o, Goal(device, sector, proposal, guid, proof, expected), host.disk.trace,
                             |old(host.disk.trace)|, |host.disk.trace|)
      ensures host.disk.exclusive && host.Calm() ==>
                (final.Some? <==> Attained(o, Goal(device, sector, proposal, guid, proof, expected),
                                           host.disk.View()))
    {
      hide NtfsShrinkPlan, Normalize, Observe, VerifyCreatedLayout, ReadMetadata, ReadInTwoPasses, ImageReader, Fits,
           Overlay;
      ghost var goal := Goal(device, sector, proposal, guid, proof, expected);
      var granted := host.disk.CheckGuard();
      if granted != Some(true) {
        return None;
      }
      var planning := PlanShrink(o, proposal);
      if planning.Refused? {
        return None;
      }
      ghost var t1 := host.disk.trace;
      var seen := VerifiedNtfsSnapshot(o, host.disk, device, sector,
                                       Layout(proposal.sourceNumber, planning.plan.rootNumber));
      if seen.None? {
        return None;
      }
      final := VerifyLayout(o, proposal, guid, proof, seen.value.0);
      if final != Some(expected) {
        return None;
      }
      ResultIsObserved(o, proposal, guid, proof, seen.value.1, device, sector, GoalLayout(o, goal), seen.value.0,
                       expected);
      assert host.disk.trace[..|host.disk.trace|] == host.disk.trace;
      assert TableSeenAt(o, goal, host.disk.trace, |old(host.disk.trace)|, |host.disk.trace|, |t1|, seen.value.1);
    }

    /** One reading of the table, then one look at the kernel's layout. */
    method PollOnce(o: Oracles, guid: Guid, proof: Digest, expected: Snapshot)
      returns (final: Option<Snapshot>, agreed: bool)
      requires Valid()
      modifies host`faults, host`polls, host.disk`trace, host.disk`faults
      ensures Valid() && host.disk.SameDisk() && old(host.disk.trace) <= host.disk.trace
      ensures host.Onward() && (final.Some? ==> host.Calm())
      ensures final.Some? ==>
                && final.value == expected && host.polls == old(host.polls) + [Poll(agreed, |host.disk.trace|)]
                && TableSeen(o, Goal(device, sector, proposal, guid, proof, expected), host.disk.trace,
                             |old(host.disk.trace)|, |host.disk.trace|)
      ensures final.None? ==> host.polls == old(host.polls)
      ensures host.disk.exclusive && host.Calm() ==>
                (final.Some? <==> Attained(o, Goal(device, sector, proposal, guid, proof, expected),
                                           host.disk.View()))
    {
      hide TableSeen, Attained, Fits, Overlay, BlockDevice.Valid;
      agreed := false;
      final := ExactTable(o, guid, proof, expected);
      if final.Some? {
        agreed := host.KernelLayout(true);
      }
    }

    /** Poll until kernel and table agree, for however many turns the deadline allows. */
    method AwaitKernel(o: Oracles, guid: Guid, proof: Digest, expected: Snapshot) returns (final: Option<Snapshot>)
      requires Valid()
      modifies host`faults, host`polls, host.disk`trace, host.disk`faults
      ensures Valid() && host.disk.SameDisk() && old(host.disk.trace) <= host.disk.trace
      ensures host.Onward() && (final.Some? ==> host.Calm())
      ensures final.Some? ==>
                && final.value == expected
                && CameToAgree(o, Goal(device, sector, proposal, guid, proof, expected),
                               host.polls[|old(host.polls)|..], host.disk.trace, |old(host.disk.trace)|)
                && host.polls[|host.polls| - 1].seen == |host.disk.trace|
      ensures final.None? ==> forall i :: |old(host.polls)| <= i < |host.polls| ==> !host.polls[i].agreed
      ensures host.disk.exclusive && host.Calm() ==>
                (final.Some? <==> Attained(o, Goal(device, sector, proposal, guid, proof, expected),
                                           host.disk.View()))
    {
      hide CameToAgree, TableSeen, Attained, Fits, Overlay, BlockDevice.Valid;
      ghost var goal := Goal(device, sector, proposal, guid, proof, expected);
      ghost var p0 := |host.polls|;
      ghost var since := |host.disk.trace|;
      var turns: nat :| true;
      while true
        invariant Valid() && host.disk.SameDisk() && old(host.disk.trace) <= host.disk.trace
        invariant host.Onward() && host.Calm()
        invariant forall i :: p0 <= i < |host.polls| ==> !host.polls[i].agreed
        invariant |host.disk.trace|
                  == since == if |host.polls| == p0 then |old(host.disk.trace)| else host.polls[|host.polls| - 1].seen
        decreases turns
      {
        ghost var before := host.polls;
        var agreed;
        final, agreed := PollOnce(o, guid, proof, expected);
        if final.None? || agreed {
          if final.Some? {
            FirstAgreement(o, goal, before, host.polls, p0, host.disk.trace, |old(host.disk.trace)|, since);
          }
          return;
        }
        since := |host.disk.trace|;
        var passed := host.DeadlinePassed(turns);
        if passed {
          return None;
        }
        turns := turns - 1;
      }
    }

    /** Open the refreshed source and check it against the committed state; it stays open. */
    method CheckRefreshed(o: Oracles, guid: Guid, proof: Digest, metadata: MetadataCommit) returns (ok: bool)
      requires Valid() && SourceFds() == {}
      modifies this`renewed, host`next, host`open, host`sources, host`faults, host`polls, host`figures,
               host`tried, host.disk`trace, host.disk`faults
      ensures Valid() && host.disk.SameDisk() && old(host.disk.trace) <= host.disk.trace
      ensures host.Onward() && (ok ==> host.Calm())
      ensures ok ==>
                && host.polls == old(host.polls) + [Poll(true, |host.disk.trace|)]
                && TableSeen(o, Goal(device, sector, proposal, guid, proof, metadata.snapshot), host.disk.trace,
                             |old(host.disk.trace)|, |host.disk.trace|)
      ensures ok ==> host.figures == old(host.figures) + [metadata.filesystem]
      ensures host.disk.exclusive && host.Calm() ==>
                (ok <==> host.figures == old(host.figures) + [metadata.filesystem]
                         && Attained(o, Goal(device, sector, proposal, guid, proof, metadata.snapshot),
                                     host.disk.View()))
      ensures reader.None? && writer.None?
      ensures SourceFds() !! old(host.open) && host.open == old(host.open) + SourceFds()
    {
      hide TableSeen, Attained, Fits, Overlay, BlockDevice.Valid;
      ok := false;
      assert reader.None? && writer.None? && renewed.None?;
      renewed := host.Open(Use.Source);
      if renewed.None? {
        return;
      }
      var bound := host.Check();
      if !bound {
        return;
      }
      var found := host.Inspect();
      if found.None? {
        return;
      }
      var after, before := found.value, metadata.filesystem;
      assert host.figures[|host.figures| - 1] == after;
      if after.volumeBytes != before.volumeBytes || after.clusterBytes != before.clusterBytes
         || after.minimumBytes != before.minimumBytes || after.targetBytes != before.targetBytes {
        return;
      }
      bound := host.Check();
      if !bound {
        return;
      }
      var final := ExactTable(o, guid, proof, metadata.snapshot);
      if final.Some? {
        ok := host.KernelLayout(false);
      }
    }

    /** The kernel's table, then the refreshed source, which stays open. */
    method ConfirmSource(o: Oracles, guid: Guid, proof: Digest, metadata: MetadataCommit)
      returns (confirmed: bool, phase: Phase)
      requires Valid() && SourceFds() == {}
      modifies this`renewed, host`next, host`open, host`sources, host`faults, host`polls, host`figures,
               host`tried, host.disk`trace, host.disk`faults
      ensures Valid() && host.disk.SameDisk() && old(host.disk.trace) <= host.disk.trace
      ensures host.Onward() && (confirmed ==> host.Calm())
      ensures confirmed ==>
                && host.figures == old(host.figures) + [metadata.filesystem]
                && AgreedTwice(o, Goal(device, sector, proposal, guid, proof, metadata.snapshot),
                               host.polls[|old(host.polls)|..], host.disk.trace, |old(host.disk.trace)|)
      ensures host.disk.exclusive && host.Calm() ==>
                (confirmed <==> host.figures == old(host.figures) + [metadata.filesystem]
                                && Attained(o, Goal(device, sector, proposal, guid, proof, metadata.snapshot),
                                            host.disk.View()))
      ensures reader.None? && writer.None?
      ensures SourceFds() !! old(host.open) && host.open == old(host.open) + SourceFds()
      ensures phase == KernelReady || phase == KernelSource
      ensures PhaseAgrees(phase, host.polls[|old(host.polls)|..]) && (confirmed ==> phase == KernelSource)
    {
      hide CameToAgree, TableSeen, Attained, AgreedTwice, PhaseAgrees, Fits, Overlay;
      ghost var goal := Goal(device, sector, proposal, guid, proof, metadata.snapshot);
      ghost var p0, t0 := |host.polls|, |host.disk.trace|;
      assert reader.None? && writer.None? && renewed.None?;
      confirmed, phase := false, KernelReady;
      var final := AwaitKernel(o, guid, proof, metadata.snapshot);
      if final.None? {
        NoneAgreed(host.polls, p0);
      } else {
        phase := KernelSource;
        ghost var polls, trace := host.polls, host.disk.trace;
        confirmed := CheckRefreshed(o, guid, proof, metadata);
        OnceAgreed(o, goal, polls, host.polls, p0, trace, t0);
        if confirmed {
          SecondAgreement(o, goal, polls, host.polls, p0, trace, host.disk.trace, t0);
        }
      }
    }

    /** The phases after the re-read: the kernel's table, the refreshed source, the last close. */
    method ReadySource(o: Oracles, guid: Guid, proof: Digest, metadata: MetadataCommit)
      returns (done: bool, phase: Phase)
      requires Valid() && SourceFds() == {} && state == Kernel
      modifies this`reader, this`writer, this`renewed, this`state,
               host`next, host`open, host`sources, host`failures, host`faults, host`polls, host`figures,
               host`tried, host.disk`trace, host.disk`faults
      ensures Valid() && host.disk.SameDisk() && old(host.disk.trace) <= host.disk.trace
      ensures host.Onward() && (done ==> host.Calm())
      ensures done ==>
                && host.figures == old(host.figures) + [metadata.filesystem]
                && AgreedTwice(o, Goal(device, sector, proposal, guid, proof, metadata.snapshot),
                               host.polls[|old(host.polls)|..], host.disk.trace, |old(host.disk.trace)|)
      ensures host.disk.exclusive && host.Calm() ==>
                (done <==> host.figures == old(host.figures) + [metadata.filesystem]
                           && Attained(o, Goal(device, sector, proposal, guid, proof, metadata.snapshot),
                                       host.disk.View()))
      ensures done <==> state == Ready
      ensures done ==> SourceFds() == {}
      ensures SourceFds() !! old(host.open) && host.open == old(host.open) + SourceFds()
      ensures phase == KernelReady || phase == KernelSource || phase == KernelCleanup
      ensures PhaseAgrees(phase, host.polls[|old(host.polls)|..])
      ensures host.failures != old(host.failures) ==> !done && phase == KernelCleanup
    {
      hide AgreedTwice, Attained, Fits, Overlay;
      done := false;
      var confirmed;
      confirmed, phase := ConfirmSource(o, guid, proof, metadata);
      if confirmed {
        phase := KernelCleanup;
        var closed := CloseSources();
        if closed {
          state := Ready;
          done := true;
        }
      }
    }

    /** The guard, then the one re-read. */
    method IssueReread() returns (reread: bool, phase: Phase)
      requires Valid() && SourceFds() == {}
      modifies host`log, host`faults, host.disk`trace, host.disk`faults
      ensures Valid() && host.disk.SameDisk() && old(host.disk.trace) <= host.disk.trace && old(host.log) <= host.log
      ensures host.Onward() && (reread <==> host.Calm()) && (phase == KernelIdentity || phase == KernelReread)
      ensures reread ==> |host.log| == |old(host.log)| + 1 && host.log[|old(host.log)|].Reread?
                         && host.log[|old(host.log)|].seen == |host.disk.trace|
      ensures OneReread(host.log[|old(host.log)|..], |host.disk.journal|, |old(host.disk.trace)|, |host.disk.trace|)
      ensures reread ==> host.log != old(host.log)
      ensures CopiesIn(phase) == 2 && PhaseFits(Fallback(phase, true), 4 + |host.log| - |old(host.log)|, 6)
    {
      reread, phase := false, KernelIdentity;
      var granted := host.disk.CheckGuard();
      if granted == Some(true) {
        phase := KernelReread;
        reread := host.RereadTable();
      }
    }

    /** Guard, re-read and what follows it, with no source descriptor held. */
    method RereadKernel(o: Oracles, guid: Guid, proof: Digest, metadata: MetadataCommit)
      returns (done: bool, phase: Phase)
      requires Valid() && SourceFds() == {} && state == Kernel
      modifies this`reader, this`writer, this`renewed, this`state,
               host`log, host`next, host`open, host`sources, host`failures, host`faults, host`polls, host`figures,
               host`tried, host.disk`trace, host.disk`faults
      ensures Valid() && host.disk.SameDisk() && old(host.disk.trace) <= host.disk.trace && old(host.log) <= host.log
      ensures host.Onward() && (done ==> host.Calm())
      ensures done ==>
                && host.figures == old(host.figures) + [metadata.filesystem]
                && |host.log| == |old(host.log)| + 1 && host.log[|old(host.log)|].Reread?
                && AgreedTwice(o, Goal(device, sector, proposal, guid, proof, metadata.snapshot),
                               host.polls[|old(host.polls)|..], host.disk.trace, host.log[|old(host.log)|].seen)
      ensures host.disk.exclusive && host.Calm() ==>
                (done <==> host.figures == old(host.figures) + [metadata.filesystem]
                           && Attained(o, Goal(device, sector, proposal, guid, proof, metadata.snapshot),
                                       host.disk.View()))
      ensures OneReread(host.log[|old(host.log)|..], |host.disk.journal|, |old(host.disk.trace)|, |host.disk.trace|)
      ensures done ==> host.log != old(host.log) && SourceFds() == {}
      ensures done <==> state == Ready
      ensures SourceFds() !! old(host.open) && host.open == old(host.open) + SourceFds()
      ensures CopiesIn(phase) == 2 && PhaseFits(Fallback(phase, true), 4 + |host.log| - |old(host.log)|, 6)
      ensures PhaseAgrees(phase, host.polls[|old(host.polls)|..])
      ensures host.failures != old(host.failures) ==> !done && phase == KernelCleanup
    {
      hide Fits, Overlay, OneReread, PhaseFits, AgreedTwice, Attained, PhaseAgrees;
      var reread;
      reread, phase := IssueReread();
      NotAsked(phase);
      assert host.polls[|old(host.polls)|..] == [];
      done := false;
      if reread {
        ghost var more, at := host.log[|old(host.log)|..], |host.disk.journal|;
        ghost var t0, t1 := |old(host.disk.trace)|, |host.disk.trace|;
        done, phase := ReadySource(o, guid, proof, metadata);
        LaterPhase(more, at, t0, t1, |host.disk.trace|, phase);
      }
    }

    /** The kernel phases, from the first close to the last. */
    method KernelPhases(o: Oracles, guid: Guid, proof: Digest, metadata: MetadataCommit)
      returns (done: bool, phase: Phase)
      requires Valid() && state == Running
      modifies this`reader, this`writer, this`renewed, this`state,
               host`log, host`next, host`open, host`sources, host`failures, host`faults, host`polls, host`figures,
               host`tried, host.disk`trace, host.disk`faults
      ensures Valid() && host.disk.SameDisk() && old(host.disk.trace) <= host.disk.trace && old(host.log) <= host.log
      ensures host.Onward() && (done ==> host.Calm())
      ensures done ==>
                && host.figures == old(host.figures) + [metadata.filesystem]
                && |host.log| == |old(host.log)| + 1 && host.log[|old(host.log)|].Reread?
                && AgreedTwice(o, Goal(device, sector, proposal, guid, proof, metadata.snapshot),
                               host.polls[|old(host.polls)|..], host.disk.trace, host.log[|old(host.log)|].seen)
      ensures host.disk.exclusive && host.Calm() ==>
                (done <==> host.figures == old(host.figures) + [metadata.filesystem]
                           && Attained(o, Goal(device, sector, proposal, guid, proof, metadata.snapshot),
                                       host.disk.View()))
      ensures OneReread(host.log[|old(host.log)|..], |host.disk.journal|, |old(host.disk.trace)|, |host.disk.trace|)
      ensures done ==> host.log != old(host.log)
      ensures done <==> state == Ready
      ensures done ==> SourceFds() == {}
      ensures SourceFds() !! old(host.open - SourceFds())
      ensures host.open == old(host.open - SourceFds()) + SourceFds()
      ensures CopiesIn(phase) == 2 && PhaseFits(Fallback(phase, true), 4 + |host.log| - |old(host.log)|, 6)
      ensures PhaseAgrees(phase, host.polls[|old(host.polls)|..])
      ensures host.failures != old(host.failures) ==> !done && (phase == KernelClose || phase == KernelCleanup)
    {
      hide Fits, Overlay, OneReread, AgreedTwice, Attained, PhaseAgrees;
      done, phase := false, KernelClose;
      NotAsked(phase);
      var closed := CloseSources();
      assert host.log[|old(host.log)|..] == [] && host.polls[|old(host.polls)|..] == [];
      NoReread(|host.disk.journal|, |host.disk.trace|, |host.disk.trace|);
      if closed {
        state := Kernel;
        done, phase := RereadKernel(o, guid, proof, metadata);
      }
    }

    /** One run.  Whatever fails, the error tells exactly what was done, and no source
        descriptor survives; success means every step happened, once and in order. */
    method Run(o: Oracles, guid: Guid, proof: Digest) returns (r: RunResult, ghost run: Option<(Update, Bytes)>)
      requires Valid() && Opened()
      requires Normalize(o, proposal.snapshot).Some? ==>
                 proposal.snapshot.device == device && proposal.snapshot.sector == sector
      modifies this, host, host.disk, host.runs
      ensures Valid() && fd == old(fd) && state != Open && host.runs.ended == old(host.runs.ended) + [r]
      ensures host.Onward()
      ensures old(state) != Open ==>
                && Seen(host) == old(Seen(host)).(ended := host.runs.ended) && host.open == old(host.open)
                && state == old(state) && progress == old(progress)
                && r == RunFailed(TransactionError(Admission, progress.sourceMayHaveChanged, progress.gptWriteStarted,
                                                   progress.verifiedGptCopies, cleanupFailed))
      ensures old(state) == Open ==>
                && SourceFds() == {} && host.open == old(host.open - SourceFds()) && host.sources == {}
                && (state == Ready <==> r.RunReady?)
                && OrderedBetween(run, old(Seen(host)), Seen(host))
                && ReadyExactly(o, host.disk.exclusive, device, sector, proposal, guid, proof, r.RunReady?,
                                old(Seen(host)), Seen(host))
      ensures old(state) == Open && r.RunReady? ==>
                && Fulfilled(o, Goal(device, sector, proposal, guid, proof, r.snapshot), host.disk.exclusive, run,
                             old(Seen(host)), Seen(host))
                && progress == Progress.Progress(true, true, 2)
      ensures old(state) == Open && r.RunFailed? ==>
                && ExactBetween(r.error, run, old(Seen(host)), Seen(host))
                && progress == Progress.Progress(r.error.sourceMayHaveChanged, r.error.gptWriteStarted,
                                                 r.error.verifiedGptCopies)
                && cleanupFailed == r.error.cleanupFailed
      ensures old(state) == Open && host.failures != old(host.failures) ==> r.RunFailed? && r.error.cleanupFailed
      ensures ProtectedBetween(o, guid, host.disk.exclusive, run, old(Seen(host)), Seen(host))
    {
      hide Normalize, OrderedBetween, ExactBetween, Fulfilled, ReadyExactly, Fits, Overlay;
      ghost var start := Seen(host);
      if state != Open {
        run := None;
        r := RunFailed(TransactionError(Admission, progress.sourceMayHaveChanged, progress.gptWriteStarted,
                                        progress.verifiedGptCopies, cleanupFailed));
        host.runs.ended := host.runs.ended + [r];
        return;
      }
      r, run := RunToEnd(o, guid, proof);
      ghost var last := Seen(host);
      host.runs.ended := host.runs.ended + [r];
      if r.RunReady? {
        FulfilledStays(o, Goal(device, sector, proposal, guid, proof, r.snapshot), host.disk.exclusive, run, start,
                       last, Seen(host));
        AccountsStay(o, guid, host.disk.exclusive, Fallback(Preparing, false), run, start, last, Seen(host));
      } else {
        AccountsStay(o, guid, host.disk.exclusive, r.error, run, start, last, Seen(host));
      }
      ReadyStays(o, host.disk.exclusive, device, sector, proposal, guid, proof, r.RunReady?, start, last, Seen(host));
    }

    /** A run of an open object: its body, then the last clean-up. */
    method RunToEnd(o: Oracles, guid: Guid, proof: Digest) returns (r: RunResult, ghost run: Option<(Update, Bytes)>)
      requires Valid() && Opened() && state == Open
      requires Normalize(o, proposal.snapshot).Some? ==>
                 proposal.snapshot.device == device && proposal.snapshot.sector == sector
      modifies this, host, host.disk
      ensures Valid() && fd == old(fd) && state != Open
      ensures host.Onward()
      ensures ReadyExactly(o, host.disk.exclusive, device, sector, proposal, guid, proof, r.RunReady?,
                           old(Seen(host)), Seen(host))
      ensures SourceFds() == {} && host.open == old(host.open - SourceFds()) && host.sources == {}
      ensures state == Ready <==> r.RunReady?
      ensures OrderedBetween(run, old(Seen(host)), Seen(host))
      ensures r.RunReady? ==>
                && Fulfilled(o, Goal(device, sector, proposal, guid, proof, r.snapshot), host.disk.exclusive, run,
                             old(Seen(host)), Seen(host))
                && progress == Progress.Progress(true, true, 2)
      ensures r.RunFailed? ==>
                && ExactBetween(r.error, run, old(Seen(host)), Seen(host))
                && progress == Progress.Progress(r.error.sourceMayHaveChanged, r.error.gptWriteStarted,
                                                 r.error.verifiedGptCopies)
                && cleanupFailed == r.error.cleanupFailed
      ensures host.failures != old(host.failures) ==> r.RunFailed? && r.error.cleanupFailed
      ensures ProtectedBetween(o, guid, host.disk.exclusive, run, old(Seen(host)), Seen(host))
    {
      hide Normalize, OrderedBetween, ExactBetween, ProtectedBetween, Fulfilled, ReadyExactly, Fits, Overlay;
      ghost var start := Seen(host);
      var final, error;
      final, error, run := RunOpen(o, guid, proof);
      if final.Some? {
        return RunReady(final.value), run;
      }
      ghost var last := Seen(host);
      error := Conclude(error, run, start);
      AccountsStay(o, guid, host.disk.exclusive, error, run, start, last, Seen(host));
      ReadyStays(o, host.disk.exclusive, device, sector, proposal, guid, proof, false, start, last, Seen(host));
      return RunFailed(error), run;
    }

    /** The body of a run, without its last clean-up. */
    method RunOpen(o: Oracles, guid: Guid, proof: Digest)
      returns (final: Option<Snapshot>, error: TransactionError, ghost run: Option<(Update, Bytes)>)
      requires Valid() && Opened() && state == Open
      requires Normalize(o, proposal.snapshot).Some? ==>
                 proposal.snapshot.device == device && proposal.snapshot.sector == sector
      modifies this, host, host.disk
      ensures Valid() && fd == old(fd)
      ensures host.Onward()
      ensures ReadyExactly(o, host.disk.exclusive, device, sector, proposal, guid, proof, final.Some?,
                           old(Seen(host)), Seen(host))
      ensures SourceFds() !! old(host.open - SourceFds()) && host.open == old(host.open - SourceFds()) + SourceFds()
      ensures OrderedBetween(run, old(Seen(host)), Seen(host)) && ExactBetween(error, run, old(Seen(host)), Seen(host))
      ensures final.Some? ==>
                && SourceFds() == {} && state == Ready && progress == Progress.Progress(true, true, 2)
                && Fulfilled(o, Goal(device, sector, proposal, guid, proof, final.value), host.disk.exclusive, run,
                             old(Seen(host)), Seen(host))
      ensures host.failures != old(host.failures) ==> final.None? && error.cleanupFailed
      ensures ProtectedBetween(o, guid, host.disk.exclusive, run, old(Seen(host)), Seen(host))
    {
      hide Normalize, OrderedBetween, ExactBetween, ProtectedBetween, CommittedBetween, Fulfilled, ReadyExactly,
           Attained, Approvable, Fits, Overlay;
      var resized;
      resized, run := Attempt(o, guid, proof);
      if resized.ResizeFailed? {
        return None, resized.error, run;
      }
      final, error := FinishRun(o, guid, proof, resized.commit, run, old(Seen(host)));
    }

    /** The resize and the table commit, on the descriptors this object holds. */
    method Attempt(o: Oracles, guid: Guid, proof: Digest) returns (r: ResizeResult, ghost run: Option<(Update, Bytes)>)
      requires Valid() && Opened() && state == Open
      requires Normalize(o, proposal.snapshot).Some? ==>
                 proposal.snapshot.device == device && proposal.snapshot.sector == sector
      modifies this`state, this`progress, host, host.disk
      ensures Valid() && state == Running && host.open == old(host.open) && !r.ResizeRaised?
      ensures host.Onward()
      ensures OrderedBetween(run, old(Seen(host)), Seen(host))
      ensures ProtectedBetween(o, guid, host.disk.exclusive, run, old(Seen(host)), Seen(host))
      ensures r.Resized? ==>
                && host.Calm() && host.polls == old(host.polls)
                && host.figures == old(host.figures) + [r.commit.filesystem]
                && CommittedBetween(o, Goal(device, sector, proposal, guid, proof, r.commit.snapshot),
                                    host.disk.exclusive, run, old(Seen(host)), Seen(host))
      ensures r.Resized? && host.disk.exclusive ==>
                Attained(o, Goal(device, sector, proposal, guid, proof, r.commit.snapshot), host.disk.View())
      ensures r.Resized? && host.disk.exclusive && old(host.disk.pending) == [] ==>
                Approvable(o, device, sector, proposal, guid, proof, old(host.disk.durable))
      ensures r.ResizeFailed? ==>
                && ExactBetween(r.error, run, old(Seen(host)), Seen(host))
                && ReadyExactly(o, host.disk.exclusive, device, sector, proposal, guid, proof, false, old(Seen(host)),
                                Seen(host))
      ensures host.failures != old(host.failures) ==> r.ResizeFailed? && r.error.cleanupFailed
    {
      hide CrashSafeFrom, ImageOf, Normalize, Proven, Stored, ExactProgress, Finished, Completed, Ordered, Fits,
           Overlay, Attained, Committable, Justified, Protected, InOrder;
      state := Running;
      progress := Progress.Progress(true, false, 0);
      r, run := ResizeAndCommit(o, host, device, sector, proposal, guid, proof, reader.value, writer.value);
      BeforeKernel(host.log[|old(host.log)|..], |old(host.disk.journal)|, host.disk.journal[|old(host.disk.journal)|..],
                   run, host.disk.trace, |old(host.disk.trace)|);
      assert host.polls[|old(host.polls)|..] == [];
      if r.ResizeFailed? {
        EarlyPhase(r.error, host.log[|old(host.log)|..], |old(host.disk.journal)|,
                   host.disk.journal[|old(host.disk.journal)|..], run, host.disk.trace, |old(host.disk.trace)|);
      }
      if r.Resized? && host.disk.exclusive {
        RunOnDevice(o, proposal, guid, proof, run, device, sector, r.commit.snapshot, host.disk.trace,
                    |old(host.disk.trace)|);
        CommittedIsAttained(o, Goal(device, sector, proposal, guid, proof, r.commit.snapshot), run,
                            host.disk.trace, |old(host.disk.trace)|, old(host.disk.durable),
                            old(host.disk.pending) == [], DiskState(host.disk.durable, host.disk.pending));
      }
    }

    /** From the committed table to the ready kernel; m is when the run began. */
    method FinishRun(o: Oracles, guid: Guid, proof: Digest, metadata: MetadataCommit,
                     ghost run: Option<(Update, Bytes)>, ghost m: Moment)
      returns (final: Option<Snapshot>, error: TransactionError)
      requires Valid() && state == Running
      requires CommittedBetween(o, Goal(device, sector, proposal, guid, proof, metadata.snapshot), host.disk.exclusive,
                                run, m, Seen(host))
      requires ProtectedBetween(o, guid, host.disk.exclusive, run, m, Seen(host))
      requires host.disk.exclusive ==>
                 Attained(o, Goal(device, sector, proposal, guid, proof, metadata.snapshot), host.disk.View())
      requires host.Count().Follows(m.tally) && host.Count().CalmSince(m.tally) && host.polls == m.tally.polls
      requires host.figures == m.tally.figures + [metadata.filesystem]
      requires host.disk.exclusive && m.now.pending == [] ==>
                 Approvable(o, device, sector, proposal, guid, proof, m.now.durable)
      modifies this, host, host.disk`trace, host.disk`faults
      ensures Valid() && fd == old(fd)
      ensures host.Onward() && host.Count().Follows(m.tally)
      ensures SourceFds() !! old(host.open - SourceFds()) && host.open == old(host.open - SourceFds()) + SourceFds()
      ensures OrderedBetween(run, m, Seen(host)) && ExactBetween(error, run, m, Seen(host))
      ensures ProtectedBetween(o, guid, host.disk.exclusive, run, m, Seen(host))
      ensures ReadyExactly(o, host.disk.exclusive, device, sector, proposal, guid, proof, final.Some?, m,
                           Seen(host))
      ensures final.Some? ==>
                && SourceFds() == {} && state == Ready && progress == Progress.Progress(true, true, 2)
                && Fulfilled(o, Goal(device, sector, proposal, guid, proof, final.value), host.disk.exclusive, run, m,
                             Seen(host))
      ensures host.failures != old(host.failures) ==> final.None? && error.cleanupFailed
    {
      hide AgreedTwice, Attained, Fits, Overlay, CommittedBetween, OrderedBetween, ExactBetween, ProtectedBetween,
           Fulfilled, ReadyExactly, Approvable;
      ghost var goal, first := Goal(device, sector, proposal, guid, proof, metadata.snapshot), Seen(host);
      final := None;
      progress := Progress.Progress(true, true, 2);
      var done, phase := KernelPhases(o, guid, proof, metadata);
      error := Fallback(phase, true);
      if done {
        final := Some(metadata.snapshot);
      }
      RunFinished(o, goal, host.disk.exclusive, run, error, metadata.filesystem, done, m, first, Seen(host));
    }

    /** The last clean-up of a failed run: record the progress, close the sources. */
    method Conclude(error: TransactionError, ghost run: Option<(Update, Bytes)>, ghost m: Moment)
      returns (r: TransactionError)
      requires Valid() && ExactBetween(error, run, m, Seen(host))
      modifies this`reader, this`writer, this`renewed, this`state, this`progress, this`cleanupFailed,
               host`open, host`sources, host`failures
      ensures host.Onward() && Seen(host) == old(Seen(host)).(tally := old(host.Count()).(failures := host.failures))
      ensures r.cleanupFailed <==> error.cleanupFailed || host.failures != old(host.failures)
      ensures Valid() && state == State.Failed && SourceFds() == {}
      ensures host.open == old(host.open - SourceFds()) && host.sources == {}
      ensures ExactBetween(r, run, m, old(Seen(host)))
      ensures r.phase == error.phase && (error.cleanupFailed ==> r.cleanupFailed) && cleanupFailed == r.cleanupFailed
      ensures progress == Progress.Progress(r.sourceMayHaveChanged, r.gptWriteStarted, r.verifiedGptCopies)
    {
      hide Fits, Overlay, ExactBetween;
      r := error;
      FlagKeeps(error, run, m, Seen(host));
      state := State.Failed;
      progress := Progress.Progress(error.sourceMayHaveChanged, error.gptWriteStarted, error.verifiedGptCopies);
      var closed := CloseSources();
      if !closed {
        r := error.(cleanupFailed := true);
      }
      cleanupFailed := r.cleanupFailed;
    }
  }

  lemma FlagKeeps(e: TransactionError, run: Option<(Update, Bytes)>, m: Moment, n: Moment)
    requires ExactBetween(e, run, m, n)
    ensures ExactBetween(e.(cleanupFailed := true), run, m, n)
  {
    StillExact(e, e.(cleanupFailed := true), n.log[|m.log|..], n.journal[|m.journal|..], run, n.trace, |m.trace|);
  }

  /** Later failing closes do not make a run ready or take that back. */
  lemma ReadyStays(o: Oracles, exclusive: bool, device: Device, sector: int, p: Proposal, guid: Guid, proof: Digest,
                   ready: bool, m: Moment, n: Moment, later: Moment)
    requires later.tally == n.tally.(failures := later.tally.failures) && n.tally.failures <= later.tally.failures
    ensures ReadyExactly(o, exclusive, device, sector, p, guid, proof, ready, m, n) ==>
              ReadyExactly(o, exclusive, device, sector, p, guid, proof, ready, m, later)
  {
    hide Approvable;
  }

  /** The kernel phases, put behind the commit. */
  lemma RunFinished(o: Oracles, g: Goal, exclusive: bool, run: Option<(Update, Bytes)>, e: TransactionError,
                    filesystem: Filesystem, done: bool, m: Moment, first: Moment, n: Moment)
    requires CommittedBetween(o, g, exclusive, run, m, first) && ProtectedBetween(o, g.guid, exclusive, run, m, first)
    requires n == first.(log := n.log, trace := n.trace, tally := n.tally)
    requires first.log <= n.log && first.trace <= n.trace && n.tally.Follows(first.tally)
    requires first.tally.Follows(m.tally) && first.tally.CalmSince(m.tally) && first.tally.polls == m.tally.polls
    requires first.tally.figures == m.tally.figures + [filesystem]
    requires exclusive && m.now.pending == [] ==>
               Approvable(o, g.device, g.sector, g.proposal, g.guid, g.proof, m.now.durable)
    requires OneReread(n.log[|first.log|..], |first.journal|, |first.trace|, |n.trace|)
    requires e == Fallback(e.phase, true) && CopiesIn(e.phase) == 2
    requires PhaseFits(e, 4 + |n.log| - |first.log|, 6)
    requires PhaseAgrees(e.phase, n.tally.polls[|first.tally.polls|..])
    requires done ==>
               && n.tally.CalmSince(first.tally) && n.tally.figures == first.tally.figures + [filesystem]
               && |n.log| == |first.log| + 1 && n.log[|first.log|].Reread?
               && AgreedTwice(o, g, n.tally.polls[|first.tally.polls|..], n.trace, n.log[|first.log|].seen)
    requires exclusive && n.tally.CalmSince(first.tally) ==>
               (done <==> n.tally.figures == first.tally.figures + [filesystem])
    ensures n.tally.Follows(m.tally)
    ensures OrderedBetween(run, m, n) && ExactBetween(e, run, m, n) && ProtectedBetween(o, g.guid, exclusive, run, m, n)
    ensures ReadyExactly(o, exclusive, g.device, g.sector, g.proposal, g.guid, g.proof, done, m, n)
    ensures done ==> Fulfilled(o, g, exclusive, run, m, n)
  {
    hide Proven, Stored, Completed, ExactProgress, Finished, Ordered, StepsBeforeTable, InOrder, AllSteps, Fits,
         Overlay, AgreedTwice, Approvable, Protected, OneReread, PhaseFits, ReadyBetween;
    var steps, more, j := first.log[|m.log|..], n.log[|first.log|..], n.journal[|m.journal|..];
    assert n.log[|m.log|..] == steps + more;
    assert m.trace <= n.trace && m.log <= n.log;
    ProvenGrows(o, g.proposal, g.guid, g.proof, run, g.result, first.trace, n.trace, |m.trace|, |m.trace|);
    AfterCommit(e, steps, more, |m.journal|, j, run, first.trace, n.trace, |m.trace|);
    ReadyInTwo(m.tally, first.tally, n.tally, filesystem, exclusive && m.now.pending == [],
               Approvable(o, g.device, g.sector, g.proposal, g.guid, g.proof, m.now.durable), done);
    if done {
      assert more != [] && more[0] == n.log[|first.log|];
      CompletedSeen(steps + more, |m.journal|, j, run, n.trace, |m.trace|);
      LastOfFive(steps, more);
    }
  }

  lemma LastOfFive(steps: seq<Step>, more: seq<Step>)
    requires |steps + more| == 5 && |more| == 1
    ensures (steps + more)[4] == more[0]
  {
  }

  /** Every step in its place, and none before what it depends on: table writes after the
      inspection, the re-read after both copies were verified. */
  ghost predicate InOrder(steps: seq<Step>, at: nat, j: seq<Event>, run: Option<(Update, Bytes)>,
                          trace: seq<Event>, from: int)
  {
    && steps <= AllSteps(at, SeenAtReread(steps))
    && (j != [] ==> StepsBeforeTable(at) <= steps)
    && (|steps| == 5 ==> Completed(steps, at, j, run, trace, from))
  }

  /** The re-read is the last step of a complete run. */
  lemma CompletedSeen(steps: seq<Step>, at: nat, j: seq<Event>, run: Option<(Update, Bytes)>, trace: seq<Event>,
                      from: int)
    requires Completed(steps, at, j, run, trace, from)
    ensures |steps| == 5 && steps[4].Reread? && SeenAtReread(steps) == steps[4].seen
  {
    hide Finished, VerifiedBy;
  }

  lemma RunOnDevice(o: Oracles, p: Proposal, guid: Guid, proof: Digest, run: Option<(Update, Bytes)>, device: Device,
                    sector: int, result: Snapshot, trace: seq<Event>, from: int)
    requires Proven(o, p, guid, proof, run, result, trace, from)
    ensures Normalize(o, p.snapshot) == Some(run.value.0.before)
    ensures run.value.0.before == p.snapshot.(parts := run.value.0.before.parts)
  {
  }

  lemma BeforeKernel(steps: seq<Step>, at: nat, j: seq<Event>, run: Option<(Update, Bytes)>, trace: seq<Event>,
                     from: int)
    requires Ordered(steps, at, j)
    ensures InOrder(steps, at, j, run, trace, from)
  {
    assert StepsBeforeTable(at) <= AllSteps(at, 0);
  }

  /** After a finished commit, the kernel phases add at most the one re-read. */
  lemma AfterCommit(e: TransactionError, steps: seq<Step>, more: seq<Step>, at: nat, j: seq<Event>,
                    run: Option<(Update, Bytes)>, t1: seq<Event>, t2: seq<Event>, from: int)
    requires Ordered(steps, at, j) && Finished(run, j, t1, from) && 0 <= from <= |t1| && t1 <= t2
    requires OneReread(more, at + |j|, |t1|, |t2|) && CopiesIn(e.phase) == 2 && PhaseFits(e, 4 + |more|, 6)
    requires e.sourceMayHaveChanged && e.gptWriteStarted && e.verifiedGptCopies == 2
    ensures ExactProgress(e, steps + more, j, run, t2, from)
    ensures Finished(run, j, t2, from)
    ensures InOrder(steps + more, at, j, run, t2, from)
    ensures more != [] ==> Completed(steps + more, at, j, run, t2, from)
  {
    FullJournalNonempty(run.value.0);
    CopiesGrow(2, run, t1, t2, from);
    JournalHasSix(run.value.0);
    hide GroupVerified, FullJournal;
    if more == [] {
      assert steps + more == steps;
    } else {
      VerifiedWider(t1, t2, from, more[0].seen, Backups(run.value.0));
      VerifiedWider(t1, t2, from, more[0].seen, Primaries(run.value.0));
      assert steps + more == AllSteps(at, more[0].seen);
    }
  }

  /** However often an object is run, the native child is started at most once. */
  method RunRepeatedly(o: Oracles, tx: BlockNtfsTransaction, guid: Guid, proof: Digest, times: nat)
    requires tx.Valid() && tx.Opened()
    requires Normalize(o, tx.proposal.snapshot).Some? ==>
               tx.proposal.snapshot.device == tx.device && tx.proposal.snapshot.sector == tx.sector
    modifies tx, tx.host, tx.host.disk, tx.host.runs
    ensures tx.Valid() && old(tx.host.log) <= tx.host.log
    ensures |tx.host.runs.ended| == |old(tx.host.runs.ended)| + times
    ensures forall i, k :: |old(tx.host.log)| <= i < k < |tx.host.log| ==>
              !(tx.host.log[i].Spawned? && tx.host.log[k].Spawned?)
    ensures times > 0 ==> tx.state != Open
  {
    hide Normalize, Proven, Stored, Protected, ExactProgress, Finished, Completed, Fits, Overlay, CrashSafeFrom;
    ghost var log0 := tx.host.log;
    for n := 0 to times
      invariant tx.Valid() && tx.Opened() && log0 <= tx.host.log
      invariant |tx.host.runs.ended| == |old(tx.host.runs.ended)| + n
      invariant n == 0 ==> tx.host.log == log0 && tx.state == old(tx.state)
      invariant n > 0 ==> tx.state != Open
      invariant forall i, k :: |log0| <= i < k < |tx.host.log| ==> !(tx.host.log[i].Spawned? && tx.host.log[k].Spawned?)
    {
      ghost var before := tx.host.log;
      var r, run := tx.Run(o, guid, proof);
      if n == 0 {
        OneSpawn(tx.host.log[|log0|..], SeenAtReread(tx.host.log[|log0|..]));
      }
    }
  }

  lemma OneSpawn(steps: seq<Step>, seen: nat)
    ensures forall at: nat :: steps <= AllSteps(at, seen) ==>
              forall i, k :: 0 <= i < k < |steps| ==> !(steps[i].Spawned? && steps[k].Spawned?)
  {
  }

  lemma JournalHasSix(u: Update)
    requires SectorOk(u.before.sector)
    ensures |FullJournal(u)| == 6
  {
  }
}
