/** Terminal reports of the transaction and the consumer that admits them. */
module Outcome {
  import opened Bytes
  import opened Gpt
  import opened GptReader
  import opened ShrinkPlan
  import opened Preservation
  import opened RoundTrip
  import opened Disk
  import opened TableIo
  import opened Commit
  import opened GptCommit

  datatype Phase =
    | Admission | Context | Power | Preparing | Native | Filesystem | Table | TableStep(step: CommitPhase)
    | MetadataCommitted | Cleanup | KernelClose | KernelIdentity | KernelReread | KernelReady | KernelSource
    | KernelCleanup | Execute | Unknown

  /** TRANSACTION_PHASES: every phase except the two that only fallbacks use. */
  predicate KnownPhase(p: Phase) {
    !p.Execute? && !p.Unknown?
  }

  datatype TransactionError = TransactionError(
    phase: Phase, sourceMayHaveChanged: bool, gptWriteStarted: bool, verifiedGptCopies: int, cleanupFailed: bool)

  /** How one run of the transaction object ended. */
  datatype RunResult = RunReady(snapshot: Snapshot) | RunFailed(error: TransactionError)

  /** An exception as the worker sees it. */
  datatype Error = Generic(cleanupFailed: bool) | Transaction(error: TransactionError)

  datatype Report =
    | Success(snapshot: Snapshot, proof: Digest)
    | Failed(phase: Phase, progressKnown: bool, sourceMayHaveChanged: bool, gptWriteStarted: bool,
             verifiedGptCopies: int, cleanupFailed: bool)

  /** The private approval that both worker and consumer hold. */
  datatype Approval = Approval(proposal: Proposal, intent: Plan, guid: Guid, proof: Digest)

  /** `normalize_ntfs_approval`: the intent is the plan of the proposal, the GUID is new. */
  ghost predicate ApprovalOk(o: Oracles, a: Approval) {
    && NtfsShrinkPlan(o, a.proposal) == Planned(a.intent)
    && Normalize(o, a.proposal.snapshot).Some?
    && FreshGuid(Normalize(o, a.proposal.snapshot).value, a.guid)
  }

  /** `failure_result`. */
  function FailureResult(error: Error, phase: Phase, entered: bool): Report {
    match error
    case Transaction(e) =>
      Failed(if KnownPhase(e.phase) then e.phase else Unknown, true, e.sourceMayHaveChanged, e.gptWriteStarted,
             e.verifiedGptCopies, e.cleanupFailed)
    case Generic(cleanupFailed) =>
      Failed(if KnownPhase(phase) then phase else Unknown, !entered, entered, entered, 0,
             cleanupFailed || phase == Cleanup)
  }

  /** `ntfs_unknown_outcome`. */
  function UnknownOutcome(started: bool, cleanupFailed: bool): Report {
    Failed(if started then Unknown else Admission, !started, started, started, 0, cleanupFailed)
  }

  /** The exit status of the worker for a report it printed. */
  function ExitCode(r: Report): int {
    if r.Success? then 0 else 2
  }

  /** Progress that contradicts itself. */
  predicate Contradictory(r: Report)
    requires r.Failed?
  {
    || (!r.sourceMayHaveChanged && (r.gptWriteStarted || r.verifiedGptCopies != 0))
    || (r.verifiedGptCopies != 0 && !r.gptWriteStarted)
    || (!r.progressKnown && (r.phase != Unknown || !r.sourceMayHaveChanged || !r.gptWriteStarted
                             || r.verifiedGptCopies != 0))
  }

  /** `normalize_ntfs_outcome`: the admitted terminal, or None where it raises. */
  ghost function NormalizeOutcome(o: Oracles, r: Report, a: Approval, exitCode: int): Option<Report> {
    if !ApprovalOk(o, a) then None
    else match r
      case Success(snapshot, proof) =>
        var seen := VerifyCreatedLayout(o, a.proposal, a.guid, a.proof, Observation(snapshot, proof));
        if exitCode != 0 || seen.None? || seen.value.fingerprint == a.proposal.snapshot.fingerprint then None
        else Some(Success(seen.value, a.proof))
      case Failed(phase, _, _, _, copies, _) =>
        if exitCode != 2 || phase.Execute? || !(0 <= copies <= 2) || Contradictory(r) then None else Some(r)
  }

  /** Errors whose progress is consistent. */
  predicate Consistent(e: TransactionError) {
    && 0 <= e.verifiedGptCopies <= 2
    && (e.gptWriteStarted ==> e.sourceMayHaveChanged)
    && (e.verifiedGptCopies > 0 ==> e.gptWriteStarted)
  }

  /** Every failure report built from a consistent error, and every fallback, is admitted as it is. */
  lemma FailuresAreAdmitted(o: Oracles, a: Approval, error: Error, phase: Phase, entered: bool)
    requires ApprovalOk(o, a)
    requires error.Transaction? ==> Consistent(error.error)
    requires entered ==> !KnownPhase(phase)
    ensures var r := FailureResult(error, phase, entered); NormalizeOutcome(o, r, a, ExitCode(r)) == Some(r)
  {
  }

  lemma UnknownOutcomeIsAdmitted(o: Oracles, a: Approval, started: bool, cleanupFailed: bool)
    requires ApprovalOk(o, a)
    ensures NormalizeOutcome(o, UnknownOutcome(started, cleanupFailed), a, 2)
            == Some(UnknownOutcome(started, cleanupFailed))
    ensures UnknownOutcome(started, cleanupFailed)
            == FailureResult(Generic(cleanupFailed), if started then Unknown else Admission, started)
  {
  }

  /** The report of a failure that the worker can build from consistent progress. */
  ghost predicate Reportable(r: Report) {
    exists error: Error, phase: Phase, entered: bool ::
      && (error.Transaction? ==> Consistent(error.error))
      && (entered ==> !KnownPhase(phase))
      && r == FailureResult(error, phase, entered)
  }

  /** The consumer admits precisely the failure reports that a worker can build, all of them as they are. */
  lemma AdmittedExactly(o: Oracles, a: Approval, r: Report, exitCode: int)
    requires ApprovalOk(o, a) && r.Failed?
    ensures NormalizeOutcome(o, r, a, exitCode) == if exitCode == 2 && Reportable(r) then Some(r) else None
  {
    hide ApprovalOk, VerifyCreatedLayout;
    var known := Transaction(TransactionError(r.phase, r.sourceMayHaveChanged, r.gptWriteStarted,
                                              r.verifiedGptCopies, r.cleanupFailed));
    if NormalizeOutcome(o, r, a, 2).Some? {
      assert r == if r.progressKnown then FailureResult(known, Unknown, false)
                  else FailureResult(Generic(r.cleanupFailed), Unknown, true);
    }
  }

  // Success is never stale

  /** Two decoded inventories with one fingerprint have the same rows. */
  lemma FingerprintDecides(o: Oracles, m: Metadata, n: Metadata, device: Device, sector: int)
    requires CollisionFree(o)
    requires Shaped(m, sector) && Shaped(n, sector)
    requires Decode(o, m, device, sector).Some? && Decode(o, n, device, sector).Some?
    requires Decode(o, m, device, sector).value.fingerprint == Decode(o, n, device, sector).value.fingerprint
    ensures m == n
  {
    hide TableOk, Normalize, Entries, FrameAll;
    assert SnapshotPreimage(m, device, sector) == SnapshotPreimage(n, device, sector);
    PreimageInjective(m, n, device, sector);
  }

  lemma PreimageInjective(m: Metadata, n: Metadata, device: Device, sector: int)
    requires Shaped(m, sector) && Shaped(n, sector) && device.size >= 0
    requires SnapshotPreimage(m, device, sector) == SnapshotPreimage(n, device, sector)
    ensures m == n
  {
    var tag := |Text("ro-gpt-snapshot-v1")| + 33;
    assert SnapshotPreimage(m, device, sector)[tag..] == FrameAll(m);
    assert SnapshotPreimage(n, device, sector)[tag..] == FrameAll(n);
    ShapedIsFramable(m, sector);
    ShapedIsFramable(n, sector);
    FramingInjective(m, n);
  }

  /** A success the commit witnessed is admitted: the new fingerprint differs from the approved one. */
  lemma SuccessIsAdmitted(o: Oracles, a: Approval, u: Update, result: Snapshot, trace: seq<Event>, from: int)
    requires CollisionFree(o) && ApprovalOk(o, a)
    requires Justified(o, a.proposal, a.guid, a.proof, u)
    requires Witnessed(o, a.proposal, a.guid, a.proof, u, result, trace, from)
    ensures NormalizeOutcome(o, Success(result, a.proof), a, 0) == Some(Success(result, a.proof))
  {
    var m := WitnessObserved(o, a, u, result, trace, from);
    hide Witnessed;
    var seen := Observation(result, a.proof);
    ObservedDecodes(o, m, u.before.device, u.before.sector, LayoutOf(u.plan));
    ObservedDecodes(o, u.captured, u.before.device, u.before.sector, LayoutOf(u.plan));
    VerifiedResult(o, a, u, seen, result);
    if seen.snapshot.fingerprint == u.before.fingerprint {
      FingerprintDecides(o, m, u.captured, u.before.device, u.before.sector);
    }
    hide Observe, Decode, NtfsShrinkPlan, ExpectedParts, FreshGuid, Justified, VerifyCreatedLayout;
    assert u.before.fingerprint == a.proposal.snapshot.fingerprint;
  }

  /** The table that a witnessed result was decoded from. */
  lemma WitnessObserved(o: Oracles, a: Approval, u: Update, result: Snapshot, trace: seq<Event>, from: int)
    returns (m: Metadata)
    requires Witnessed(o, a.proposal, a.guid, a.proof, u, result, trace, from)
    ensures SectorOk(u.before.sector) && Shaped(m, u.before.sector)
    ensures Observe(o, m, u.before.device, u.before.sector, LayoutOf(u.plan)) == Some(Observation(result, a.proof))
    ensures VerifyCreatedLayout(o, a.proposal, a.guid, a.proof, Observation(result, a.proof)) == Some(result)
  {
    hide Observe, VerifyCreatedLayout, GroupVerified, TableRead;
    var lo, end, seen :| WitnessedAt(o, a.proposal, a.guid, a.proof, u, result, trace, from, lo, end, seen);
    m := seen;
    var mid, first :| PassesAt(o, trace[..end], lo, mid, u.before.device, u.before.sector, LayoutOf(u.plan),
                               Observation(result, a.proof), first, m);
  }

  lemma ObservedDecodes(o: Oracles, m: Metadata, device: Device, sector: int, layout: Layout)
    requires Shaped(m, sector) && Observe(o, m, device, sector, layout).Some?
    ensures Decode(o, m, device, sector) == Some(Observe(o, m, device, sector, layout).value.snapshot)
  {
    hide Decode, BindingOk, ProofPreimage;
  }

  /** A verified result is the observed inventory, with one row more than before. */
  lemma VerifiedResult(o: Oracles, a: Approval, u: Update, seen: Observation, result: Snapshot)
    requires Justified(o, a.proposal, a.guid, a.proof, u) && Normal(o, seen.snapshot)
    requires VerifyCreatedLayout(o, a.proposal, a.guid, a.proof, seen) == Some(result)
    ensures Normalize(o, a.proposal.snapshot) == Some(u.before)
    ensures result == seen.snapshot && seen.proof == a.proof
    ensures |result.parts| == |u.before.parts| + 1
    ensures VerifyCreatedLayout(o, a.proposal, a.guid, a.proof, Observation(result, a.proof)) == Some(result)
  {
    NormalizeIsNormal(o, seen.snapshot);
    SortLemma(WithNewEnd(u.before.parts, u.plan.source.number, u.plan.newEnd) + [PlannedRoot(u.plan, a.guid)]);
    hide Normalize, Normal, Observe, NtfsShrinkPlan, Decode, FreshGuid;
  }
}
