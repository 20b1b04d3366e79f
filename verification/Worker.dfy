/** The root worker: nested scopes around one run, and the report it prints. */
module Worker {
  import opened Bytes
  import opened Gpt
  import opened ShrinkPlan
  import opened Preservation
  import opened RoundTrip
  import opened Images
  import opened Disk
  import opened TableIo
  import opened Commit
  import opened GptCommit
  import opened Outcome
  import opened Machine
  import opened Transaction
  import opened KernelTransition

  /** The descriptor of the inhibitor in a worker that starts at descriptor `first`: the three
      of the context are opened before it. */
  function InhibitorFd(first: int): int {
    first + 3
  }

  /** Whether closing a descriptor, if there is one, works. */
  predicate Closes(host: Host, fd: Option<int>) {
    fd.Some? ==> host.closes(fd.value)
  }

  /** Whether closing every descriptor of the context works. */
  predicate ContextCloses(closes: int -> bool, first: int) {
    closes(first) && closes(first + 1) && closes(first + 2)
  }

  /** Anchors were opened, and nothing else. */
  predicate OnlyAnchors(before: seq<Use>, after: seq<Use>) {
    after == before + [Anchor] || after == before + [Anchor, Anchor]
  }

  /** The inherited lease and the two directories that anchor it. */
  class TrustedContext {
    const host: Host
    var lease: Option<int>
    var directory: Option<int>
    var parent: Option<int>

    ghost function Owned(): set<int>
      reads this
    {
      Held(lease) + Held(directory) + Held(parent)
    }

    ghost predicate Valid()
      reads this, host
    {
      && Owned() <= host.open && host.sources !! Owned()
      && Held(lease) !! Held(directory) && Held(lease) !! Held(parent) && Held(directory) !! Held(parent)
    }

    constructor (host: Host)
      ensures this.host == host && Owned() == {} && Valid()
    {
      this.host, lease, directory, parent := host, None, None, None;
    }

    /** The constructor of the program: all three descriptors, or none. */
    static method Acquire(host: Host, inherited: int) returns (context: TrustedContext?)
      requires host.Valid() && host.sources == {} && inherited in host.open
      modifies host`next, host`open, host`sources, host`failures, host`faults, host`tried
      ensures host.Valid() && host.sources == {} && host.Onward() && (context != null <==> host.Calm())
      ensures OnlyAnchors(old(host.tried), host.tried)
      ensures context == null ==> host.open == old(host.open)
      ensures context != null ==>
                && fresh(context) && context.host == host && context.Valid()
                && context.Owned() !! old(host.open) && host.open == old(host.open) + context.Owned()
                && context.parent == Some(old(host.next)) && context.directory == Some(old(host.next) + 1)
                && context.lease == Some(old(host.next) + 2) && host.next == InhibitorFd(old(host.next))
    {
      context := new TrustedContext(host);
      var acquired := context.OpenAll(inherited);
      if !acquired {
        var closed := context.Close();
        context := null;
      }
    }

    /** Both directories, each checked. */
    method OpenDirectories() returns (ok: bool)
      requires host.Valid() && Valid() && Owned() == {} && host.sources == {}
      modifies this`directory, this`parent, host`next, host`open, host`sources, host`faults, host`tried
      ensures host.Valid() && Valid() && host.sources == {} && host.Onward() && (ok <==> host.Calm())
      ensures OnlyAnchors(old(host.tried), host.tried)
      ensures Owned() == Held(directory) + Held(parent)
      ensures Owned() !! old(host.open) && host.open == old(host.open) + Owned()
      ensures ok ==> parent == Some(old(host.next)) && directory == Some(old(host.next) + 1)
                     && host.next == old(host.next) + 2
    {
      hide Fits, Overlay, BlockDevice.Valid;
      assert lease.None? && directory.None? && parent.None?;
      parent := host.Open(Anchor);
      ok := parent.Some?;
      if ok {
        ok := host.Check();
      }
      if ok {
        directory := host.Open(Anchor);
        ok := directory.Some?;
      }
      if ok {
        ok := host.Check();
      }
    }

    method OpenAll(inherited: int) returns (ok: bool)
      requires host.Valid() && Valid() && Owned() == {} && host.sources == {} && inherited in host.open
      modifies this`lease, this`directory, this`parent, host`next, host`open, host`sources, host`faults,
               host`tried
      ensures host.Valid() && Valid() && host.sources == {} && host.Onward() && (ok <==> host.Calm())
      ensures OnlyAnchors(old(host.tried), host.tried)
      ensures Owned() !! old(host.open) && host.open == old(host.open) + Owned()
      ensures ok ==> parent == Some(old(host.next)) && directory == Some(old(host.next) + 1)
                     && lease == Some(old(host.next) + 2) && host.next == InhibitorFd(old(host.next))
    {
      hide Fits, Overlay;
      ok := OpenDirectories();
      if ok {
        lease := host.Dup(inherited);
        ok := lease.Some?;
      }
      if ok {
        ok := host.Check();
      }
    }

    /** Every descriptor is closed once, in order; a failing close does not stop the others. */
    method Close() returns (ok: bool)
      requires host.Valid() && Valid()
      modifies this`lease, this`directory, this`parent, host`open, host`sources, host`failures
      ensures old(host.failures) <= host.failures && (ok <==> host.failures == old(host.failures))
      ensures ok <==> Closes(host, old(lease)) && Closes(host, old(directory)) && Closes(host, old(parent))
      ensures host.Valid() && Valid() && Owned() == {}
      ensures host.open == old(host.open - Owned()) && host.sources == old(host.sources)
    {
      ok := true;
      if lease.Some? {
        var closing := lease.value;
        lease := None;
        var closed := host.Close(closing);
        ok := ok && closed;
      }
      if directory.Some? {
        var closing := directory.value;
        directory := None;
        var closed := host.Close(closing);
        ok := ok && closed;
      }
      if parent.Some? {
        var closing := parent.value;
        parent := None;
        var closed := host.Close(closing);
        ok := ok && closed;
      }
    }
  }

  /** What is known at the end of a scope: the exception in flight, if any, and the worker's variables. */
  datatype Scope = Scope(error: Option<Error>, phase: Phase, entered: bool, completed: bool, snapshot: Option<Snapshot>)

  /** `error.cleanup_failed = True` on whatever exception is in flight. */
  function Flagged(e: Error): Error {
    match e
    case Generic(_) => Generic(true)
    case Transaction(t) => Transaction(t.(cleanupFailed := true))
  }

  /** What really happened since the worker began, against what a scope holds. */
  ghost predicate Accurate(o: Oracles, a: Approval, s: Scope, steps: seq<Step>, at: nat, j: seq<Event>,
                           run: Option<(Update, Bytes)>, trace: seq<Event>, from: int)
  {
    && (!s.entered ==> steps == [] && j == [] && KnownPhase(s.phase) && !s.completed
                       && (s.error.Some? ==> s.error.value.Generic?))
    && (s.entered ==> s.phase == Execute)
    && (s.error.None? ==> s.completed)
    && (s.error.Some? && s.error.value.Transaction? ==>
          ExactProgress(s.error.value.error, steps, j, run, trace, from))
    && (s.completed ==>
          && s.entered && s.snapshot.Some? && Completed(steps, at, j, run, trace, from)
          && Proven(o, a.proposal, a.guid, a.proof, run, s.snapshot.value, trace, from))
  }

  /** What a scope holds after the runs in it: there was none, it failed, or it succeeded; `failed`
      says whether any descriptor's close failed. */
  predicate Follows(s: Scope, ended: seq<RunResult>, failed: bool) {
    if ended == [] then
      && !s.entered && !s.completed && UnenteredPhase(s.phase) && (s.phase == Cleanup ==> failed)
      && s.error.Some? && s.error.value.Generic? && (s.error.value.cleanupFailed ==> failed)
    else
      && |ended| == 1 && s.entered && s.phase == Execute
      && match ended[0]
         case RunFailed(e) =>
           !s.completed && s.error == Some(Transaction(e.(cleanupFailed := e.cleanupFailed || failed)))
         case RunReady(result) =>
           s.completed && s.snapshot == Some(result) && (s.error.Some? <==> failed)
           && (s.error.Some? && s.error.value.Transaction? ==>
                 s.error.value.error == TransactionError(Cleanup, true, true, 2, true))
  }

  // The accounts of one scope, from the moment it was entered

  ghost predicate AccurateBetween(o: Oracles, a: Approval, s: Scope, run: Option<(Update, Bytes)>, m: Moment, n: Moment)
  {
    && Grew(m, n)
    && Accurate(o, a, s, n.log[|m.log|..], |m.journal|, n.journal[|m.journal|..], run, n.trace, |m.trace|)
  }

  /** What the runs in it say is what happened, every disk state was protected, and a ready run left
      its result on the disk. */
  ghost predicate WorkDone(o: Oracles, a: Approval, exclusive: bool, run: Option<(Update, Bytes)>,
                           ended: seq<RunResult>, m: Moment, n: Moment)
  {
    && Grew(m, n) && n.ended == m.ended + ended
    && Happened(o, a, ended, n.log[|m.log|..], |m.journal|, n.journal[|m.journal|..], run, n.trace, |m.trace|)
    && Protected(o, a.guid, run, m.now.durable, exclusive && m.now.pending == [], n.states, |m.states|)
    && StoredIfReady(o, a.proof, ended, run, m.now.durable, m.now.pending == [], exclusive, n.now)
  }

  /** At that moment the disk held the table that was approved for it. */
  ghost predicate ApprovedAt(o: Oracles, a: Approval, m: Moment) {
    Approvable(o, a.proposal.snapshot.device, a.proposal.snapshot.sector, a.proposal, a.guid, a.proof, m.now.durable)
  }

  /** A whole scope: its account, what was done in it, and when its run is ready. */
  ghost predicate Scoped(o: Oracles, a: Approval, exclusive: bool, s: Scope, run: Option<(Update, Bytes)>,
                         ended: seq<RunResult>, m: Moment, n: Moment)
  {
    && WorkDone(o, a, exclusive, run, ended, m, n) && AccurateBetween(o, a, s, run, m, n)
    && n.tally.Follows(m.tally)
    && ReadyBetween(m.tally, n.tally, exclusive && m.now.pending == [], ApprovedAt(o, a, m), Ready(ended))
  }

  /** Only reads and descriptors lie between the two moments. */
  predicate OnlyOpened(m: Moment, n: Moment) {
    && n == m.(trace := n.trace, tally := n.tally) && m.trace <= n.trace
    && n.tally.Follows(m.tally) && n.tally.figures == m.tally.figures
  }

  lemma NoWork(o: Oracles, a: Approval, exclusive: bool, m: Moment, n: Moment)
    requires OnlyOpened(m, n)
    ensures WorkDone(o, a, exclusive, None, [], m, n)
  {
    assert n.log[|m.log|..] == [] && n.journal[|m.journal|..] == [] && m.ended + [] == m.ended;
  }

  /** A scope in which nothing was run. */
  lemma NeverEntered(o: Oracles, a: Approval, exclusive: bool, s: Scope, m: Moment, n: Moment, failed: bool,
                     released: bool, late: bool)
    requires OnlyOpened(m, n)
    requires exclusive && m.now.pending == [] && n.tally.CalmSince(m.tally) ==> !ApprovedAt(o, a, m)
    requires UnenteredPhase(s.phase) && s.phase != Cleanup
    requires !s.entered && !s.completed && s.error.Some? && s.error.value.Generic?
    requires s.error.value.cleanupFailed ==> failed
    ensures Scoped(o, a, exclusive, s, None, [], m, n)
    ensures Follows(s, [], failed) && FollowsRelease(s, [], failed, released, late)
  {
    hide ApprovedAt;
    NoWork(o, a, exclusive, m, n);
    assert n.log[|m.log|..] == [] && n.journal[|m.journal|..] == [];
  }

  /** A scope entered later, after nothing but successful opening. */
  lemma EnterScope(o: Oracles, a: Approval, exclusive: bool, s: Scope, run: Option<(Update, Bytes)>,
                   ended: seq<RunResult>, start: Moment, m: Moment, n: Moment)
    requires OnlyOpened(start, m) && m.tally.CalmSince(start.tally)
    requires Scoped(o, a, exclusive, s, run, ended, m, n)
    ensures Scoped(o, a, exclusive, s, run, ended, start, n)
    ensures n.tally.Follows(m.tally) && n.tally.Follows(start.tally)
  {
    hide Happened, Accurate, Protected, StoredIfReady, ApprovedAt;
    assert ApprovedAt(o, a, start) == ApprovedAt(o, a, m) by {
      SameDurable(o, a, start, m);
    }
    assert start.trace <= n.trace by {
      PrefixThrough(start.trace, m.trace, n.trace);
    }
    ReadyWider(start.tally, m.tally, n.tally, n.tally, exclusive && m.now.pending == [], ApprovedAt(o, a, m),
               Ready(ended));
    AccurateFrom(o, a, s, n.log[|m.log|..], |m.journal|, n.journal[|m.journal|..], run, n.trace, |start.trace|,
                 |m.trace|);
    HappenedFrom(o, a, ended, n.log[|m.log|..], |m.journal|, n.journal[|m.journal|..], run, n.trace, |start.trace|,
                 |m.trace|);
  }

  lemma SameDurable(o: Oracles, a: Approval, m: Moment, n: Moment)
    requires m.now == n.now
    ensures ApprovedAt(o, a, m) == ApprovedAt(o, a, n)
  {
  }

  /** Leaving a scope, with closes that may fail, changes neither what was done nor how accurate the
      account is. */
  lemma LeaveScope(o: Oracles, a: Approval, exclusive: bool, inner: Scope, s: Scope, run: Option<(Update, Bytes)>,
                   ended: seq<RunResult>, m: Moment, last: Moment, n: Moment)
    requires Scoped(o, a, exclusive, inner, run, ended, m, last) && Left(inner, s)
    requires n == last.(tally := n.tally) && n.tally == last.tally.(failures := n.tally.failures)
    requires n.tally.failures >= last.tally.failures
    ensures Scoped(o, a, exclusive, s, run, ended, m, n)
    ensures last.tally.Follows(m.tally) && n.tally.Follows(m.tally)
  {
    hide Happened, Accurate, Protected, StoredIfReady, ApprovedAt;
    LeavingIsAccurate(o, a, inner, s, n.log[|m.log|..], |m.journal|, n.journal[|m.journal|..], run, n.trace, |m.trace|);
    ReadyWider(m.tally, m.tally, last.tally, n.tally, exclusive && m.now.pending == [], ApprovedAt(o, a, m),
               Ready(ended));
  }

  /** The phase of a worker that never ran its transaction tells what was opened last. */
  predicate PhaseTells(p: Phase, before: seq<Use>, after: seq<Use>) {
    && before <= after
    && var tried := after[|before|..];
       if WholeDisk in tried then p == Phase.Admission || p == Cleanup
       else if Inhibitor in tried then p == Power
       else p == if tried == [] then Phase.Admission else Context
  }

  /** The inhibitor could not be opened. */
  lemma PowerTells(before: seq<Use>, after: seq<Use>)
    requires after == before + [Inhibitor]
    ensures PhaseTells(Power, before, after) && before < after
  {
    assert after[|before|..] == [Inhibitor];
  }

  /** Behind the inhibitor, the disk was tried. */
  lemma DiskTells(p: Phase, before: seq<Use>, first: seq<Use>, after: seq<Use>)
    requires first == before + [Inhibitor] && first + [WholeDisk] <= after
    ensures before < after
    ensures p == Phase.Admission || p == Cleanup ==> PhaseTells(p, before, after)
  {
    assert after[|before|..][1] == WholeDisk;
  }

  /** Behind the anchors it is told alike. */
  lemma AnchorsTell(p: Phase, before: seq<Use>, first: seq<Use>, after: seq<Use>)
    requires OnlyAnchors(before, first)
    requires (first == after && p == Context) || (first < after && PhaseTells(p, first, after))
    ensures PhaseTells(p, before, after)
  {
    var anchors, tried := first[|before|..], after[|first|..];
    assert after[|before|..] == anchors + tried && anchors[0] == Anchor;
    assert forall u :: u in anchors ==> u == Anchor;
    assert forall u :: u in anchors + tried <==> u in anchors || u in tried;
  }

  predicate Ready(ended: seq<RunResult>) {
    |ended| == 1 && ended[0].RunReady?
  }

  /** The phases of the worker before the run. */
  predicate UnenteredPhase(p: Phase) {
    p == Context || p == Power || p == Phase.Admission || p == Cleanup
  }

  /** The same once the inhibitor was released; a failing release takes the place of the error of
      a failed run.  `late` says whether closing the context failed after that. */
  predicate FollowsRelease(s: Scope, ended: seq<RunResult>, failed: bool, released: bool, late: bool) {
    if |ended| == 1 && ended[0].RunFailed? && !released
    then s.entered && !s.completed && s.phase == Execute && s.error == Some(Generic(late))
    else Follows(s, ended, failed)
  }

  /** What the runs of a worker say about it is what happened: nothing, the steps and writes that
      the error accounts for, or all of them. */
  ghost predicate Happened(o: Oracles, a: Approval, ended: seq<RunResult>, steps: seq<Step>, at: nat, j: seq<Event>,
                           run: Option<(Update, Bytes)>, trace: seq<Event>, from: int)
  {
    if ended == [] then steps == [] && j == []
    else
      && |ended| == 1
      && match ended[0]
         case RunFailed(e) => ExactProgress(e, steps, j, run, trace, from)
         case RunReady(result) =>
           Completed(steps, at, j, run, trace, from)
           && Proven(o, a.proposal, a.guid, a.proof, run, result, trace, from)
  }

  /** What a successful run left on the disk. */
  ghost predicate StoredIfReady(o: Oracles, proof: Digest, ended: seq<RunResult>, run: Option<(Update, Bytes)>,
                                d: Bytes, clean: bool, exclusive: bool, now: DiskState)
  {
    |ended| == 1 && ended[0].RunReady? ==> Stored(o, proof, run, ended[0].snapshot, d, clean, exclusive, now)
  }

  /** The report of a worker, as a function of how its run ended and of which closes failed. */
  predicate Told(r: Report, ended: seq<RunResult>, failed: bool, released: bool, late: bool, proof: Digest) {
    if ended == [] then
      && r.Failed? && UnenteredPhase(r.phase) && (r.phase == Cleanup ==> r.cleanupFailed)
      && r == Report.Failed(r.phase, true, false, false, 0, r.cleanupFailed) && (r.cleanupFailed ==> failed)
    else
      && |ended| == 1
      && match ended[0]
         case RunFailed(e) =>
           r == if released then
                  Report.Failed(e.phase, true, e.sourceMayHaveChanged, e.gptWriteStarted, e.verifiedGptCopies,
                                e.cleanupFailed || failed)
                else UnknownOutcome(true, late)
         case RunReady(result) =>
           r == if failed then Report.Failed(Cleanup, true, true, true, 2, true) else Success(result, proof)
  }

  /** A report that keeps an error: its phase and its progress, with the flag only raised. */
  predicate Keeps(r: Report, e: TransactionError) {
    && r.Failed? && (e.cleanupFailed ==> r.cleanupFailed)
    && r == Report.Failed(e.phase, true, e.sourceMayHaveChanged, e.gptWriteStarted, e.verifiedGptCopies,
                          r.cleanupFailed)
  }

  /** The report of a worker that started at descriptor `first`, for a schedule of closes: it keeps
      the error of a failed run if and only if closing the inhibitor works. */
  predicate Reported(r: Report, ended: seq<RunResult>, failed: bool, closes: int -> bool, first: int, proof: Digest) {
    && Told(r, ended, failed, closes(InhibitorFd(first)), !ContextCloses(closes, first), proof)
    && (|ended| == 1 && ended[0].RunFailed? ==> (Keeps(r, ended[0].error) <==> closes(InhibitorFd(first))))
  }

  lemma ConclusionIsReported(s: Scope, ended: seq<RunResult>, failed: bool, closes: int -> bool, first: int,
                             proof: Digest)
    requires FollowsRelease(s, ended, failed, closes(InhibitorFd(first)), !ContextCloses(closes, first))
    requires |ended| == 1 && ended[0].RunFailed? ==> KnownPhase(ended[0].error.phase)
    ensures s.error.None? ==> s.snapshot.Some?
    ensures Reported(Conclusion(s, proof), ended, failed, closes, first, proof)
    ensures ended == [] ==> Conclusion(s, proof).Failed? && Conclusion(s, proof).phase == s.phase
  {
  }

  /** The report never understates: a started child, an attempted table write and the number
      of verified copies; and when it says progress is known, the flags are exact. */
  ghost predicate Conservative(r: Report, steps: seq<Step>, j: seq<Event>, run: Option<(Update, Bytes)>,
                               trace: seq<Event>, from: int)
  {
    r.Failed? ==>
      && (steps != [] ==> r.sourceMayHaveChanged)
      && (j != [] ==> r.gptWriteStarted)
      && CopiesReal(r.verifiedGptCopies, run, trace, from)
      && (r.progressKnown ==> (r.sourceMayHaveChanged <==> steps != []) && (r.gptWriteStarted <==> j != []))
  }

  ghost predicate ConservativeBetween(r: Report, run: Option<(Update, Bytes)>, m: Moment, n: Moment) {
    && Grew(m, n)
    && Conservative(r, n.log[|m.log|..], n.journal[|m.journal|..], run, n.trace, |m.trace|)
  }

  /** The last lines of `execute`: success, or the report of the surviving error. */
  function Conclusion(s: Scope, proof: Digest): Report
    requires s.error.None? ==> s.snapshot.Some?
  {
    if s.error.None? then Success(s.snapshot.value, proof)
    else if s.completed && s.error.value.Generic?
      then FailureResult(Transaction(TransactionError(Cleanup, true, true, 2, true)), s.phase, s.entered)
    else FailureResult(s.error.value, s.phase, s.entered)
  }

  /** From an accurate scope the report is conservative, and the consumer admits it unchanged. */
  lemma ConclusionIsConservative(o: Oracles, a: Approval, s: Scope, steps: seq<Step>, at: nat, j: seq<Event>,
                                 run: Option<(Update, Bytes)>, trace: seq<Event>, from: int)
    requires Accurate(o, a, s, steps, at, j, run, trace, from)
    ensures Conservative(Conclusion(s, a.proof), steps, j, run, trace, from)
    ensures Conclusion(s, a.proof).Success? ==>
              Completed(steps, at, j, run, trace, from)
              && Proven(o, a.proposal, a.guid, a.proof, run, Conclusion(s, a.proof).snapshot, trace, from)
  {
    hide Proven, GroupVerified;
    if s.completed {
      FullJournalNonempty(run.value.0);
    }
    hide FullJournal;
  }

  lemma ConclusionIsAdmitted(o: Oracles, a: Approval, s: Scope, steps: seq<Step>, at: nat, j: seq<Event>,
                             run: Option<(Update, Bytes)>, trace: seq<Event>, from: int)
    requires Accurate(o, a, s, steps, at, j, run, trace, from)
    requires ApprovalOk(o, a) && CollisionFree(o)
    ensures var r := Conclusion(s, a.proof); NormalizeOutcome(o, r, a, ExitCode(r)) == Some(r)
  {
    if s.error.None? {
      SuccessAdmitted(o, a, s, steps, at, j, run, trace, from);
    } else {
      var e := if s.completed && s.error.value.Generic?
               then Transaction(TransactionError(Cleanup, true, true, 2, true)) else s.error.value;
      hide Proven, Completed, ExactProgress, NormalizeOutcome, ApprovalOk, CollisionFree;
      if s.error.value.Transaction? {
        ExactIsConsistent(s.error.value.error, steps, j, run, trace, from);
      }
      FailuresAreAdmitted(o, a, e, s.phase, s.entered);
    }
  }

  lemma SuccessAdmitted(o: Oracles, a: Approval, s: Scope, steps: seq<Step>, at: nat, j: seq<Event>,
                        run: Option<(Update, Bytes)>, trace: seq<Event>, from: int)
    requires Accurate(o, a, s, steps, at, j, run, trace, from) && s.error.None?
    requires ApprovalOk(o, a) && CollisionFree(o)
    ensures NormalizeOutcome(o, Success(s.snapshot.value, a.proof), a, 0) == Some(Success(s.snapshot.value, a.proof))
  {
    hide Justified, Witnessed, Completed, ExactProgress, NormalizeOutcome, ApprovalOk, CollisionFree;
    SuccessIsAdmitted(o, a, run.value.0, s.snapshot.value, trace, from);
  }

  // The nested scopes, from the inside out

  /** Inside the `with` of the transaction object: hand over the disk descriptor, then run. */
  method InsideTransaction(o: Oracles, tx: BlockNtfsTransaction, whole: int, a: Approval)
    returns (s: Scope, ghost run: Option<(Update, Bytes)>, ghost ended: seq<RunResult>)
    requires tx.Valid() && tx.Opened() && tx.state == Open && tx.proposal == a.proposal
    requires tx.progress == Progress.Progress(false, false, 0)
    requires Normalize(o, a.proposal.snapshot).Some? && a.proposal.snapshot.device == tx.device
    requires a.proposal.snapshot.sector == tx.sector
    requires whole in tx.host.open && whole !in tx.Owned()
    modifies tx, tx.host, tx.host.disk, tx.host.runs
    ensures tx.Valid() && tx.Owned() <= old(tx.Owned())
    ensures ended == [] ==> s.phase == Cleanup && tx.host.failures > old(tx.host.failures)
    ensures tx.host.open == old(tx.host.open - tx.Owned() - {whole}) + tx.Owned()
    ensures Scoped(o, a, tx.host.disk.exclusive, s, run, ended, old(Seen(tx.host)), Seen(tx.host))
    ensures s.error.None? ==> tx.progress == Progress.Progress(true, true, 2)
    ensures Follows(s, ended, tx.host.failures != old(tx.host.failures))
  {
    hide CrashSafeFrom, ImageOf, Normalize, Fits, Overlay, Scoped, ApprovedAt, OrderedBetween, ExactBetween, Fulfilled,
         ReadyExactly, ProtectedBetween;
    ghost var start := Seen(tx.host);
    run := None;
    var closed := tx.host.Close(whole);
    if !closed {
      s := Scope(Some(Generic(false)), Cleanup, false, false, None);
      NothingRan(o, a, tx.host.disk.exclusive, s, start, Seen(tx.host));
      return s, run, [];
    }
    assert Seen(tx.host) == start;
    var result;
    result, run := tx.Run(o, a.guid, a.proof);
    if result.RunFailed? {
      s := Scope(Some(Transaction(result.error)), Execute, true, false, None);
    } else {
      s := Scope(None, Execute, true, true, Some(result.snapshot));
    }
    RanScope(o, a, tx.host.disk.exclusive, result, run, s, start, Seen(tx.host));
    return s, run, [result];
  }

  /** The scope of one run. */
  lemma RanScope(o: Oracles, a: Approval, exclusive: bool, result: RunResult, run: Option<(Update, Bytes)>, s: Scope,
                 m: Moment, n: Moment)
    requires n.ended == m.ended + [result] && n.tally.Follows(m.tally)
    requires OrderedBetween(run, m, n) && ProtectedBetween(o, a.guid, exclusive, run, m, n)
    requires ReadyExactly(o, exclusive, a.proposal.snapshot.device, a.proposal.snapshot.sector, a.proposal, a.guid,
                          a.proof, result.RunReady?, m, n)
    requires result.RunReady? ==>
               Fulfilled(o, Goal(a.proposal.snapshot.device, a.proposal.snapshot.sector, a.proposal, a.guid, a.proof,
                                 result.snapshot), exclusive, run, m, n)
    requires result.RunFailed? ==> ExactBetween(result.error, run, m, n)
    requires s == match result
                  case RunFailed(e) => Scope(Some(Transaction(e)), Execute, true, false, None)
                  case RunReady(x) => Scope(None, Execute, true, true, Some(x))
    ensures Scoped(o, a, exclusive, s, run, [result], m, n)
  {
    hide InOrder, Completed, Proven, Stored, ExactProgress, Protected, AgreedTwice, Approvable, ReadyBetween;
  }

  /** A scope that failed before its run. */
  lemma NothingRan(o: Oracles, a: Approval, exclusive: bool, s: Scope, m: Moment, n: Moment)
    requires n == m.(tally := m.tally.(failures := n.tally.failures)) && n.tally.failures > m.tally.failures
    requires !s.entered && !s.completed && KnownPhase(s.phase) && s.error.Some? && s.error.value.Generic?
    ensures Scoped(o, a, exclusive, s, None, [], m, n)
  {
    hide ApprovedAt;
    NoWork(o, a, exclusive, m, n);
    assert n.log[|m.log|..] == [] && n.journal[|m.journal|..] == [];
  }

  /** `__exit__` of the transaction object after its body. */
  method LeaveTransaction(tx: BlockNtfsTransaction, inner: Scope) returns (s: Scope)
    requires tx.Valid() && (inner.error.None? ==> tx.progress == Progress.Progress(true, true, 2))
    modifies tx, tx.host`open, tx.host`sources, tx.host`failures
    ensures tx.host.Valid() && tx.host.open == old(tx.host.open - tx.Owned()) && tx.host.sources == {}
    ensures s == inner
            || (inner.error.None?
                && s == inner.(error := Some(Transaction(TransactionError(Cleanup, true, true, 2, true)))))
            || (inner.error.Some? && inner.error.value.Transaction?
                && s == inner.(error := Some(Flagged(inner.error.value))))
    ensures tx.host.Onward()
    ensures tx.host.failures == old(tx.host.failures) ==> s == inner
    ensures tx.host.failures != old(tx.host.failures) && (inner.error.None? || inner.error.value.Transaction?) ==>
              s.error.Some? && s.error.value.Transaction? && s.error.value.error.cleanupFailed
  {
    s := inner;
    var closed := tx.Close();
    if !closed {
      if inner.error.None? {
        s := inner.(error := Some(Transaction(TransactionError(Cleanup, tx.progress.sourceMayHaveChanged,
                      tx.progress.gptWriteStarted, tx.progress.verifiedGptCopies, true))));
      } else if inner.error.value.Transaction? {
        s := inner.(error := Some(Flagged(inner.error.value)));
      }
    }
  }

  /** How a scope's end may change what is known. */
  predicate Left(inner: Scope, s: Scope) {
    || s == inner
    || (inner.error.None? && s == inner.(error := Some(Transaction(TransactionError(Cleanup, true, true, 2, true)))))
    || (inner.error.Some? && s == inner.(error := Some(Flagged(inner.error.value))))
    || (s.error.Some? && s.error.value.Generic? && s == inner.(error := s.error))
  }

  /** Leaving a scope may flag the error or, after success, report a failed clean-up; both stay accurate. */
  lemma LeavingIsAccurate(o: Oracles, a: Approval, inner: Scope, s: Scope, steps: seq<Step>, at: nat, j: seq<Event>,
                          run: Option<(Update, Bytes)>, trace: seq<Event>, from: int)
    requires Accurate(o, a, inner, steps, at, j, run, trace, from)
    requires Left(inner, s)
    ensures Accurate(o, a, s, steps, at, j, run, trace, from)
  {
    hide Proven, GroupVerified;
    if inner.completed {
      FullJournalNonempty(run.value.0);
    }
    hide FullJournal;
  }

  /** From opening the disk to the end of the transaction object. */
  method WithTransaction(o: Oracles, host: Host, a: Approval)
    returns (s: Scope, ghost run: Option<(Update, Bytes)>, ghost ended: seq<RunResult>)
    requires host.Valid() && host.sources == {}
    modifies host, host.disk, host.runs
    ensures host.Valid() && host.open == old(host.open) && host.sources == {}
    ensures Scoped(o, a, host.disk.exclusive, s, run, ended, old(Seen(host)), Seen(host))
    ensures Follows(s, ended, host.failures != old(host.failures))
    ensures old(host.tried) + [WholeDisk] <= host.tried
    ensures ended == [] ==> s.phase == Phase.Admission || s.phase == Cleanup
  {
    hide CrashSafeFrom, ImageOf, Normalize, Fits, Overlay, Scoped, ApprovedAt;
    ghost var start := Seen(host);
    run, ended := None, [];
    var tx, whole, cleanupFailed := OpenTransaction(o, host, a);
    ghost var first := Seen(host);
    if tx == null {
      s := Scope(Some(Generic(cleanupFailed)), Admission, false, false, None);
      NeverEntered(o, a, host.disk.exclusive, s, start, first, host.failures != old(host.failures), true, false);
      return;
    }
    s, run, ended := RunAndLeave(o, tx, whole, a);
    EnterScope(o, a, host.disk.exclusive, s, run, ended, start, first, Seen(host));
  }

  /** The descriptor of the disk and the transaction object, or neither. */
  method OpenTransaction(o: Oracles, host: Host, a: Approval)
    returns (tx: BlockNtfsTransaction?, whole: int, cleanupFailed: bool)
    requires host.Valid() && host.sources == {}
    modifies host, host.disk`trace, host.disk`faults
    ensures host.Valid() && OnlyOpened(old(Seen(host)), Seen(host))
    ensures old(host.tried) + [WholeDisk] <= host.tried
    ensures if tx != null then host.Calm() else !(host.Calm() && ApprovedAt(o, a, old(Seen(host))))
    ensures tx == null ==> host.open == old(host.open) && host.sources == {}
    ensures tx == null && cleanupFailed ==> host.failures != old(host.failures)
    ensures tx != null ==>
              && fresh(tx) && tx.host == host && tx.Valid() && tx.Opened() && tx.state == Open
              && tx.proposal == a.proposal && tx.progress == Progress.Progress(false, false, 0)
              && Normalize(o, a.proposal.snapshot).Some? && a.proposal.snapshot.device == tx.device
              && a.proposal.snapshot.sector == tx.sector
              && whole !in tx.Owned() && tx.Owned() !! old(host.open)
              && whole !in old(host.open) && host.open == old(host.open) + {whole} + tx.Owned()
  {
    hide Normalize, NtfsShrinkPlan, Fits, Overlay, Committable;
    CommittableIsUpdatable(o, a.proposal.snapshot.device, a.proposal.snapshot.sector, a.proposal, a.guid, a.proof,
                           host.disk.durable);
    tx, whole, cleanupFailed := null, 0, false;
    var fd := host.Open(WholeDisk);
    if fd.Some? {
      whole := fd.value;
      tx := BlockNtfsTransaction.Acquire(o, host, whole, a.proposal);
      if tx == null {
        var closed := host.Close(whole);
        cleanupFailed := !closed;
      }
    }
  }

  method RunAndLeave(o: Oracles, tx: BlockNtfsTransaction, whole: int, a: Approval)
    returns (s: Scope, ghost run: Option<(Update, Bytes)>, ghost ended: seq<RunResult>)
    requires tx.Valid() && tx.Opened() && tx.state == Open && tx.proposal == a.proposal
    requires tx.progress == Progress.Progress(false, false, 0)
    requires Normalize(o, a.proposal.snapshot).Some? && a.proposal.snapshot.device == tx.device
    requires a.proposal.snapshot.sector == tx.sector
    requires whole in tx.host.open && whole !in tx.Owned()
    modifies tx, tx.host, tx.host.disk, tx.host.runs
    ensures tx.host.Valid() && tx.host.open == old(tx.host.open - tx.Owned() - {whole}) && tx.host.sources == {}
    ensures ended == [] ==> s.phase == Cleanup && tx.host.failures > old(tx.host.failures)
    ensures Scoped(o, a, tx.host.disk.exclusive, s, run, ended, old(Seen(tx.host)), Seen(tx.host))
    ensures Follows(s, ended, tx.host.failures != old(tx.host.failures))
  {
    hide CrashSafeFrom, ImageOf, Normalize, Fits, Overlay, Scoped, ApprovedAt, Follows;
    s, run, ended := InsideTransaction(o, tx, whole, a);
    ghost var inner, last := s, Seen(tx.host);
    assert inner.error.None? ==> tx.progress == Progress.Progress(true, true, 2);
    s := LeaveTransaction(tx, s);
    LeaveScope(o, a, tx.host.disk.exclusive, inner, s, run, ended, old(Seen(tx.host)), last, Seen(tx.host));
    LeaveFollows(inner, s, ended, last.tally.failures != old(tx.host.failures),
                 last.tally.failures != tx.host.failures);
  }

  /** Leaving the transaction object: a failing close is told where it can be. */
  lemma LeaveFollows(inner: Scope, s: Scope, ended: seq<RunResult>, before: bool, closing: bool)
    requires Follows(inner, ended, before) && (!closing ==> s == inner)
    requires || s == inner
             || (inner.error.None?
                 && s == inner.(error := Some(Transaction(TransactionError(Cleanup, true, true, 2, true)))))
             || (inner.error.Some? && inner.error.value.Transaction?
                 && s == inner.(error := Some(Flagged(inner.error.value))))
    requires closing && (inner.error.None? || inner.error.value.Transaction?) ==>
               s.error.Some? && s.error.value.Transaction? && s.error.value.error.cleanupFailed
    ensures Follows(s, ended, before || closing)
  {
  }

  lemma PrefixThrough(a: seq<Event>, b: seq<Event>, c: seq<Event>)
    requires a <= b <= c
    ensures a <= c
  {
  }

  lemma AccurateFrom(o: Oracles, a: Approval, s: Scope, steps: seq<Step>, at: nat, j: seq<Event>,
                     run: Option<(Update, Bytes)>, trace: seq<Event>, from: int, lo: int)
    requires 0 <= from <= lo && Accurate(o, a, s, steps, at, j, run, trace, lo)
    ensures Accurate(o, a, s, steps, at, j, run, trace, from)
  {
    hide Proven, Completed, ExactProgress;
    if s.error.Some? && s.error.value.Transaction? {
      hide Finished;
      FromEarlier(s.error.value.error, steps, j, run, trace, from, lo);
    }
    if s.completed {
      CompletedFrom(steps, at, j, run, trace, from, lo);
      ProvenGrows(o, a.proposal, a.guid, a.proof, run, s.snapshot.value, trace, trace, lo, from);
    }
  }

  lemma HappenedFrom(o: Oracles, a: Approval, ended: seq<RunResult>, steps: seq<Step>, at: nat, j: seq<Event>,
                     run: Option<(Update, Bytes)>, trace: seq<Event>, from: int, lo: int)
    requires 0 <= from <= lo && Happened(o, a, ended, steps, at, j, run, trace, lo)
    ensures Happened(o, a, ended, steps, at, j, run, trace, from)
  {
    hide Proven, Completed, ExactProgress, Finished;
    if ended != [] {
      match ended[0] {
        case RunFailed(e) => FromEarlier(e, steps, j, run, trace, from, lo);
        case RunReady(result) =>
          CompletedFrom(steps, at, j, run, trace, from, lo);
          ProvenGrows(o, a.proposal, a.guid, a.proof, run, result, trace, trace, lo, from);
      }
    }
  }

  /** Releasing the inhibitor after the transaction. */
  lemma ReleaseFollows(inner: Scope, s: Scope, ended: seq<RunResult>, before: bool, failed: bool, released: bool)
    requires Follows(inner, ended, before)
    requires if released then s == inner && failed == before else s == inner.(error := Some(Generic(false))) && failed
    ensures FollowsRelease(s, ended, failed, released, false)
  {
  }

  /** Inside the trusted context: the power inhibitor around the transaction.  A failing
      release replaces whatever exception was in flight. */
  method WithInhibitor(o: Oracles, host: Host, a: Approval)
    returns (s: Scope, ghost run: Option<(Update, Bytes)>, ghost ended: seq<RunResult>)
    requires host.Valid() && host.sources == {}
    modifies host, host.disk, host.runs
    ensures host.Valid() && host.open == old(host.open) && host.sources == {}
    ensures Scoped(o, a, host.disk.exclusive, s, run, ended, old(Seen(host)), Seen(host))
    ensures FollowsRelease(s, ended, host.failures != old(host.failures), host.closes(old(host.next)), false)
    ensures ended != [] && !host.closes(old(host.next)) ==> host.failures > old(host.failures)
    ensures old(host.tried) < host.tried
    ensures ended == [] ==> PhaseTells(s.phase, old(host.tried), host.tried)
  {
    hide CrashSafeFrom, ImageOf, Normalize, Fits, Overlay, Scoped, ApprovedAt, Follows, FollowsRelease, PhaseTells;
    ghost var start := Seen(host);
    run, ended := None, [];
    var inhibitor := host.Open(Inhibitor);
    ghost var first := Seen(host);
    if inhibitor.None? {
      s := Scope(Some(Generic(false)), Power, false, false, None);
      PowerTells(start.tally.tried, host.tried);
      NeverEntered(o, a, host.disk.exclusive, s, start, first, false, host.closes(old(host.next)), false);
      return;
    }
    s, run, ended := InsideInhibitor(o, host, inhibitor.value, a);
    EnterScope(o, a, host.disk.exclusive, s, run, ended, start, first, Seen(host));
    DiskTells(s.phase, start.tally.tried, first.tally.tried, host.tried);
  }

  /** The transaction, then the release of the inhibitor. */
  method InsideInhibitor(o: Oracles, host: Host, inhibitor: int, a: Approval)
    returns (s: Scope, ghost run: Option<(Update, Bytes)>, ghost ended: seq<RunResult>)
    requires host.Valid() && host.sources == {} && inhibitor in host.open
    modifies host, host.disk, host.runs
    ensures host.Valid() && host.open == old(host.open) - {inhibitor} && host.sources == {}
    ensures Scoped(o, a, host.disk.exclusive, s, run, ended, old(Seen(host)), Seen(host))
    ensures FollowsRelease(s, ended, host.failures != old(host.failures), host.closes(inhibitor), false)
    ensures !host.closes(inhibitor) ==> host.failures > old(host.failures)
    ensures old(host.tried) + [WholeDisk] <= host.tried
    ensures ended == [] ==> s.phase == Phase.Admission || s.phase == Cleanup
  {
    hide CrashSafeFrom, ImageOf, Normalize, Fits, Overlay, Scoped, ApprovedAt, Follows, FollowsRelease;
    s, run, ended := WithTransaction(o, host, a);
    ghost var inner, last := s, Seen(host);
    var closed := host.Close(inhibitor);
    if !closed {
      s := s.(error := Some(Generic(false)));
    }
    LeaveScope(o, a, host.disk.exclusive, inner, s, run, ended, old(Seen(host)), last, Seen(host));
    ReleaseFollows(inner, s, ended, last.tally.failures != old(host.failures), host.failures != old(host.failures),
                   closed);
  }

  /** The scopes of `execute`, outermost first: the trusted context around the inhibitor. */
  method WithContext(o: Oracles, host: Host, inherited: int, a: Approval)
    returns (s: Scope, ghost run: Option<(Update, Bytes)>, ghost ended: seq<RunResult>)
    requires host.Valid() && host.sources == {} && inherited in host.open
    modifies host, host.disk, host.runs
    ensures host.Valid() && host.open == old(host.open) && host.sources == {}
    ensures Scoped(o, a, host.disk.exclusive, s, run, ended, old(Seen(host)), Seen(host))
    ensures FollowsRelease(s, ended, host.failures != old(host.failures),
                           host.closes(InhibitorFd(old(host.next))), !ContextCloses(host.closes, old(host.next)))
    ensures ended != [] && !host.closes(InhibitorFd(old(host.next))) ==> host.failures > old(host.failures)
    ensures ended == [] ==> PhaseTells(s.phase, old(host.tried), host.tried)
  {
    hide CrashSafeFrom, ImageOf, Normalize, Fits, Overlay, Scoped, ApprovedAt, FollowsRelease, PhaseTells, OnlyAnchors,
         TrustedContext.Owned;
    ghost var start := Seen(host);
    run, ended := None, [];
    var context := TrustedContext.Acquire(host, inherited);
    ghost var first := Seen(host);
    if context == null {
      s := Scope(Some(Generic(false)), Context, false, false, None);
      AnchorsTell(s.phase, start.tally.tried, first.tally.tried, host.tried);
      NeverEntered(o, a, host.disk.exclusive, s, start, first, host.failures != old(host.failures),
                   host.closes(InhibitorFd(old(host.next))), !ContextCloses(host.closes, old(host.next)));
      return;
    }
    s, run, ended := InsideContext(o, host, context, a);
    EnterScope(o, a, host.disk.exclusive, s, run, ended, start, first, Seen(host));
    if ended == [] {
      AnchorsTell(s.phase, start.tally.tried, first.tally.tried, host.tried);
    }
  }

  /** Everything inside the trusted context, then its closes. */
  method InsideContext(o: Oracles, host: Host, context: TrustedContext, a: Approval)
    returns (s: Scope, ghost run: Option<(Update, Bytes)>, ghost ended: seq<RunResult>)
    requires host.Valid() && host.sources == {} && context.host == host && context.Valid()
    modifies host, host.disk, host.runs, context
    ensures host.Valid() && host.open == old(host.open - context.Owned()) && host.sources == {}
    ensures Scoped(o, a, host.disk.exclusive, s, run, ended, old(Seen(host)), Seen(host))
    ensures FollowsRelease(s, ended, host.failures != old(host.failures), host.closes(old(host.next)),
                           !old(Closes(host, context.lease) && Closes(host, context.directory)
                                && Closes(host, context.parent)))
    ensures ended != [] && !host.closes(old(host.next)) ==> host.failures > old(host.failures)
    ensures old(host.tried) < host.tried
    ensures ended == [] ==> PhaseTells(s.phase, old(host.tried), host.tried)
  {
    hide CrashSafeFrom, ImageOf, Normalize, Fits, Overlay, Scoped, ApprovedAt, FollowsRelease, PhaseTells;
    s, run, ended := WithInhibitor(o, host, a);
    ghost var inner, last := s, Seen(host);
    var closed := context.Close();
    if !closed {
      s := s.(error := Some(if s.error.None? then Generic(false) else Flagged(s.error.value)));
    }
    LeaveScope(o, a, host.disk.exclusive, inner, s, run, ended, old(Seen(host)), last, Seen(host));
    ContextFollows(inner, s, ended, last.tally.failures != old(host.failures), host.closes(old(host.next)), closed);
  }

  /** Closing the context after the inhibitor was released. */
  lemma ContextFollows(inner: Scope, s: Scope, ended: seq<RunResult>, before: bool, released: bool, closed: bool)
    requires FollowsRelease(inner, ended, before, released, false)
    requires s == if closed then inner
                  else inner.(error := Some(if inner.error.None? then Generic(false) else Flagged(inner.error.value)))
    ensures FollowsRelease(s, ended, before || !closed, released, !closed)
  {
  }

  /** `execute`: the report of one worker, whatever fails. No descriptor is left open, the
      report never understates, and the consumer admits it unchanged. */
  method Perform(o: Oracles, host: Host, inherited: int, a: Approval)
    returns (r: Report, ghost run: Option<(Update, Bytes)>, ghost ended: seq<RunResult>)
    requires host.Valid() && host.sources == {} && inherited in host.open
    modifies host, host.disk, host.runs
    ensures host.Valid() && host.open == old(host.open) && host.sources == {}
    ensures WorkDone(o, a, host.disk.exclusive, run, ended, old(Seen(host)), Seen(host))
    ensures ConservativeBetween(r, run, old(Seen(host)), Seen(host))
    ensures r.Success? ==>
              && Completed(host.log[|old(host.log)|..], |old(host.disk.journal)|,
                           host.disk.journal[|old(host.disk.journal)|..], run, host.disk.trace, |old(host.disk.trace)|)
              && Proven(o, a.proposal, a.guid, a.proof, run, r.snapshot, host.disk.trace, |old(host.disk.trace)|)
    ensures ApprovalOk(o, a) && CollisionFree(o) ==> NormalizeOutcome(o, r, a, ExitCode(r)) == Some(r)
    ensures Reported(r, ended, host.failures != old(host.failures), host.closes, old(host.next), a.proof)
    ensures ended != [] && !host.closes(InhibitorFd(old(host.next))) ==> host.failures > old(host.failures)
    ensures ended == [] ==> PhaseTells(r.phase, old(host.tried), host.tried)
    ensures r.Success? ==> host.Calm()
    ensures host.Onward()
    ensures ReadyBetween(old(host.Count()), host.Count(), host.disk.exclusive && old(host.disk.pending) == [],
                         ApprovedAt(o, a, old(Seen(host))), r.Success?)
  {
    hide CrashSafeFrom, ImageOf, Normalize, Fits, Overlay, Accurate, Conservative, Completed, Proven, Stored,
         NormalizeOutcome, ApprovalOk, CollisionFree, Reported, FollowsRelease, Conclusion, KnownPhase, ReadyBetween,
         Committable;
    ghost var log0, j0, t0 := host.log, host.disk.journal, host.disk.trace;
    var s;
    s, run, ended := WithContext(o, host, inherited, a);
    AccurateHasSnapshot(o, a, s, host.log[|log0|..], |j0|, host.disk.journal[|j0|..], run, host.disk.trace, |t0|);
    if |ended| == 1 && ended[0].RunFailed? {
      ExactIsConsistent(ended[0].error, host.log[|log0|..], host.disk.journal[|j0|..], run, host.disk.trace, |t0|);
    }
    ConclusionIsReported(s, ended, host.failures != old(host.failures), host.closes, old(host.next), a.proof);
    r := Conclusion(s, a.proof);
    SuccessIsReady(old(host.Count()), host.Count(), host.disk.exclusive && old(host.disk.pending) == [],
                   ApprovedAt(o, a, old(Seen(host))), r, ended, host.closes, old(host.next), a.proof);
    ConclusionIsConservative(o, a, s, host.log[|log0|..], |j0|, host.disk.journal[|j0|..], run, host.disk.trace, |t0|);
    if ApprovalOk(o, a) && CollisionFree(o) {
      ConclusionIsAdmitted(o, a, s, host.log[|log0|..], |j0|, host.disk.journal[|j0|..], run, host.disk.trace, |t0|);
    }
  }

  /** The failing case: the inhibitor's is the only close that fails. Whatever a failed run has
      accounted for, two verified copies included, the report says that nothing is known, and
      not even that a close failed. */
  method ReleaseHidesProgress(o: Oracles, host: Host, inherited: int, a: Approval)
    returns (r: Report, ghost run: Option<(Update, Bytes)>, ghost ended: seq<RunResult>)
    requires host.Valid() && host.sources == {} && inherited in host.open
    requires forall fd :: host.closes(fd) <==> fd != InhibitorFd(host.next)
    modifies host, host.disk, host.runs
    ensures host.runs.ended == old(host.runs.ended) + ended && |ended| <= 1
    ensures Since(host, old(host.log), old(host.disk.journal), old(host.disk.trace))
    ensures Happened(o, a, ended, host.log[|old(host.log)|..], |old(host.disk.journal)|,
                     host.disk.journal[|old(host.disk.journal)|..], run, host.disk.trace, |old(host.disk.trace)|)
    ensures ended != [] && ended[0].RunFailed? ==>
              && host.failures > old(host.failures) && r == UnknownOutcome(true, false)
              && !r.progressKnown && !r.cleanupFailed && r.verifiedGptCopies == 0 && !Keeps(r, ended[0].error)
    ensures ended != [] && ended[0].RunReady? ==> r == Report.Failed(Cleanup, true, true, true, 2, true)
  {
    hide Happened, Conservative, Completed, Proven, StoredIfReady, Protected, NormalizeOutcome, ApprovalOk,
         CollisionFree;
    r, run, ended := Perform(o, host, inherited, a);
  }

  /** Success is reported for a ready run without a failing close, and only then. */
  lemma SuccessIsReady(before: Tally, after: Tally, clean: bool, approved: bool, r: Report, ended: seq<RunResult>,
                       closes: int -> bool, first: int, proof: Digest)
    requires ReadyBetween(before, after, clean, approved, Ready(ended))
    requires Reported(r, ended, after.failures != before.failures, closes, first, proof)
    requires ended != [] && !closes(InhibitorFd(first)) ==> after.failures > before.failures
    ensures ReadyBetween(before, after, clean, approved, r.Success?)
    ensures r.Success? ==> after.CalmSince(before)
  {
  }

  lemma AccurateHasSnapshot(o: Oracles, a: Approval, s: Scope, steps: seq<Step>, at: nat, j: seq<Event>,
                            run: Option<(Update, Bytes)>, trace: seq<Event>, from: int)
    requires Accurate(o, a, s, steps, at, j, run, trace, from)
    ensures s.error.None? ==> s.snapshot.Some?
  {
  }

  /** The approval part of `parse_frame`. */
  method CheckApproval(o: Oracles, a: Approval) returns (ok: bool)
    ensures ok == ApprovalOk(o, a)
  {
    hide NtfsShrinkPlan, Normalize, FreshGuid;
    var planning := PlanShrink(o, a.proposal);
    var normal := NormalizeSnapshot(o, a.proposal.snapshot, None);
    ok := planning == Planned(a.intent) && normal.Some? && FreshGuid(normal.value, a.guid);
  }

  /** `main`: what is printed and with which status.  A frame that did not parse is None.
      Whatever is printed is admitted by a consumer that holds the approval it sent. */
  method RunWorker(o: Oracles, host: Host, inherited: int, frame: Option<Approval>, sent: Approval)
    returns (printed: Option<Report>, code: int, ghost run: Option<(Update, Bytes)>, ghost ended: seq<RunResult>)
    requires host.Valid() && host.sources == {} && inherited in host.open
    requires frame.Some? ==> frame.value == sent
    modifies host, host.disk, host.runs
    ensures host.Valid() && host.open == old(host.open) && host.sources == {}
    ensures WorkDone(o, sent, host.disk.exclusive, run, ended, old(Seen(host)), Seen(host))
    ensures printed.Some? ==> ConservativeBetween(printed.value, run, old(Seen(host)), Seen(host))
    ensures printed.Some? && ApprovalOk(o, sent) && CollisionFree(o) ==>
              NormalizeOutcome(o, printed.value, sent, code) == Some(printed.value)
    ensures printed.None? ==> code == 2
    ensures printed.Some? ==>
              Reported(printed.value, ended, host.failures != old(host.failures), host.closes, old(host.next),
                       sent.proof)
    ensures ended != [] && !host.closes(InhibitorFd(old(host.next))) ==> host.failures > old(host.failures)
    ensures printed.Some? && ended == [] ==> PhaseTells(printed.value.phase, old(host.tried), host.tried)
    ensures printed.Some? && printed.value.Success? ==> host.Calm()
    ensures ReadyBetween(old(host.Count()), host.Count(), host.disk.exclusive && old(host.disk.pending) == [],
                         frame.Some? && ApprovalOk(o, sent) && ApprovedAt(o, sent, old(Seen(host))),
                         printed.Some? && printed.value.Success?)
  {
    hide CrashSafeFrom, ImageOf, Normalize, Fits, Overlay, ConservativeBetween, NormalizeOutcome, ApprovalOk,
         CollisionFree, Reported, WorkDone, ReadyBetween, ApprovedAt;
    var report;
    report, run, ended := Respond(o, host, inherited, frame, sent);
    ghost var last, seen := host.Count(), Seen(host);
    var fits := host.Check();
    TallyAside(o, sent, host.disk.exclusive, report, run, ended, old(Seen(host)), seen, Seen(host));
    ReadyPrinted(old(host.Count()), last, host.Count(), host.disk.exclusive && old(host.disk.pending) == [],
                 frame.Some? && ApprovalOk(o, sent) && ApprovedAt(o, sent, old(Seen(host))), report.Success?, fits);
    printed, code := None, 2;
    if fits {
      printed, code := Some(report), ExitCode(report);
    }
  }

  /** The report of a worker, before it is printed. */
  method Respond(o: Oracles, host: Host, inherited: int, frame: Option<Approval>, sent: Approval)
    returns (r: Report, ghost run: Option<(Update, Bytes)>, ghost ended: seq<RunResult>)
    requires host.Valid() && host.sources == {} && inherited in host.open
    requires frame.Some? ==> frame.value == sent
    modifies host, host.disk, host.runs
    ensures host.Valid() && host.open == old(host.open) && host.sources == {}
    ensures WorkDone(o, sent, host.disk.exclusive, run, ended, old(Seen(host)), Seen(host))
    ensures ConservativeBetween(r, run, old(Seen(host)), Seen(host))
    ensures ApprovalOk(o, sent) && CollisionFree(o) ==> NormalizeOutcome(o, r, sent, ExitCode(r)) == Some(r)
    ensures Reported(r, ended, host.failures != old(host.failures), host.closes, old(host.next), sent.proof)
    ensures ended != [] && !host.closes(InhibitorFd(old(host.next))) ==> host.failures > old(host.failures)
    ensures ended == [] ==> PhaseTells(r.phase, old(host.tried), host.tried)
    ensures r.Success? ==> host.Calm()
    ensures host.Onward()
    ensures ReadyBetween(old(host.Count()), host.Count(), host.disk.exclusive && old(host.disk.pending) == [],
                         frame.Some? && ApprovalOk(o, sent) && ApprovedAt(o, sent, old(Seen(host))), r.Success?)
  {
    hide CrashSafeFrom, ImageOf, Normalize, Fits, Overlay, ConservativeBetween, NormalizeOutcome, ApprovalOk,
         CollisionFree, Reported, WorkDone, Completed, Proven, ReadyBetween, Committable;
    ghost var clean, approvable := host.disk.exclusive && host.disk.pending == [], ApprovedAt(o, sent, Seen(host));
    run, ended := None, [];
    var limited := host.Check();
    var approved := false;
    if limited && frame.Some? {
      approved := CheckApproval(o, frame.value);
    }
    ghost var start, first := old(Seen(host)), host.Count();
    if approved {
      r, run, ended := Perform(o, host, inherited, sent);
    } else {
      NotReady(old(host.Count()), first, clean, frame.Some? && ApprovalOk(o, sent) && approvable);
      r := FailureResult(Generic(false), Admission, false);
      NothingDone(o, sent, r, start, Seen(host), host.closes, old(host.next));
      NoWork(o, sent, host.disk.exclusive, start, Seen(host));
    }
  }

  /** What was done, and what is told of it, does not depend on the failures counted. */
  lemma TallyAside(o: Oracles, a: Approval, exclusive: bool, r: Report, run: Option<(Update, Bytes)>,
                   ended: seq<RunResult>, m: Moment, last: Moment, n: Moment)
    requires n == last.(tally := n.tally)
    ensures WorkDone(o, a, exclusive, run, ended, m, n) == WorkDone(o, a, exclusive, run, ended, m, last)
    ensures ConservativeBetween(r, run, m, n) == ConservativeBetween(r, run, m, last)
  {
    hide Happened, Protected, StoredIfReady, Conservative;
  }

  /** The last check decides whether the report is printed. */
  lemma ReadyPrinted(before: Tally, last: Tally, after: Tally, clean: bool, approved: bool, ready: bool, fits: bool)
    requires ReadyBetween(before, last, clean, approved, ready)
    requires after == last.(faults := if fits then last.faults else last.faults + 1)
    ensures ReadyBetween(before, after, clean, approved, fits && ready)
  {
  }

  lemma NothingDone(o: Oracles, sent: Approval, r: Report, m: Moment, n: Moment, closes: int -> bool, first: int)
    requires r == FailureResult(Generic(false), Admission, false)
    requires OnlyOpened(m, n)
    ensures ConservativeBetween(r, None, m, n) && Reported(r, [], false, closes, first, sent.proof)
    ensures ApprovalOk(o, sent) ==> NormalizeOutcome(o, r, sent, ExitCode(r)) == Some(r)
  {
    hide ApprovalOk;
    assert n.log[|m.log|..] == [] && n.journal[|m.journal|..] == [];
  }
}
