# RO-Installer storage verification

A Dafny 4.11 model of the parts of the installer that can lose data, with proofs of what they promise.
`dafny verify dfyconfig.toml` checks everything. Nothing here runs the installer.

## What is modelled

**The NTFS-shrink pipeline** (`linux/ro_installer_gpt.py`, `ro_installer_ntfs_commit.py`,
`ro_installer_ntfs_transaction.py`, `ro_installer_ntfs.py`). The partition table format is GPT, sections
5.2.3 and 5.3.1 to 5.3.3 of the UEFI Specification 2.11.

- `Bytes`, `Gpt`, `GptReader`: byte strings, the inventory with its normalisation, and the reader on bytes.
- `GptPrinter`: a writer of whole tables after chapter 5 of the UEFI Specification, independent of the reader.
- `FreeExtents`, `ShrinkPlan`, `CreatePlans`: gaps, alignment, and the three planners.
- `Preservation`, `UpdatePlan`, `RoundTrip`: the masked digest input, the four patches, and what the reader
  makes of the patched table.
- `Images`, `Disk`, `TableIo`: whole disk images; a disk with a volatile cache whose reads, writes and
  flushes may fail or fall short; the reader and the planner over that disk.
- `Commit`, `CrashSafety`, `GptCommit`: the two-copy commit, every state it passes through, and every disk
  image that a crash in any of these states can leave.
- `Outcome`, `Machine`, `Transaction`, `KernelTransition`, `Worker`: descriptors, the native child, the
  transaction objects, the kernel's re-read, the worker's report and the consumer that admits it.
- `PowersOfTwo`, `NtfsGeometry`: NTFS boot sectors, printed and read, and their arithmetic before and after the resize.

**The session recorder** (`linux/ro_installer_records.py`). `Observation` is what the report holds, as a
function of calls and clock; `Recorder` is the object with its files and faults; `RecordStore` is the store
that concurrent sessions share.

**Two loops.** `Qga` is the guest agent resynchroniser (`linux/qga_client.py`), `EfiBudget` the EFI tree
budget (`linux/ro_installer_manual.py`).

Conventions. CRC-32, SHA-256 and the size of the JSON text are parameters (`Gpt.Oracles`); statements that
need SHA-256 to separate inputs say so with `CollisionFree`. The nondeterministic choices in method bodies
stand for the operating system: each call may succeed, fail or do less than it was asked for. Ghost fields
(`trace`, `journal`, `states`, `log`, `polls`, `figures`, `tried`, `ended`) record what really happened, and reports
are compared with them. `faults` and `failures` count every call that was refused, raised or fell short, and every
failing close: success is tied to them in both directions.
Which closes fail is a schedule: of descriptors (`Host.closes`; the model never uses a number again) and of saves
(`Recorder.saves`).
Disk states are the durable bytes together with the writes that were not flushed; after a crash each byte
is the durable one or one from any such write (`Disk.CrashImage`).

Findings, with the exact condition for each:

- `compact_plan` does not check the limit of 32 rows. After the plan is carried out the inventory is readable
  if and only if there were at most 30 rows (`CompactReadableExactly`, `CompactCanOverflow`).
- The second "Shrink unnecessary" refusal of `ntfs_shrink_plan` can never happen (`SecondCheckIsDead`).
- The store quota can be exceeded: a session that fills up and finishes between the reading of its size and
  the trial of its lock is counted at the old size. Over all schedules the quota holds if and only if the
  session limit alone guarantees it, or no start fits behind a session that has stored a summary: the quota is
  below one reservation plus the least summary, or no summary fits at all (`QuotaExactly`). With the shipped
  limits it can be exceeded (`ShippedLimitsCanOverfill`). It always holds if no session is undercounted
  (`CalmRunsKeepQuota`).
- With a session limit of zero the first session is still admitted, because the test stands inside the loop
  over existing sessions (`SessionCountExactly`).
- `_synchronize` misses our answer if and only if the received piece that ends it also holds a later
  delimiter (`FirstAnswerExactly`, `AnswerCanBeMissed`).
- `finish` leaves a running stage or span running if and only if the error code it was given is outside the
  schema (`FinishStopsEverything`).
- A failing `close` inside `checkpoint` escapes from `outcome` and `finish` as an exception, although logging
  failure is documented as state (docstring of `ro_installer_records.py`, lines 1-6). It does if and only if the
  call saves (a valid verdict before the end, or the end), the directory is open, the log neither unavailable
  nor failed, the report within its limit, and the temporary file is created and its close fails
  (`Recorder.Raises`, `Recorder.Checkpoint`, `Recorder.Perform`).
- The first error of a failed run does not always reach the report: the power inhibitor ends in a bare
  `os.close`, whose error replaces the one in flight. Phase, flags and copies are kept if and only if that
  close works (`Worker.Perform`, `Reported`); on the schedule on which it alone fails, the report of every failed
  run says unknown and not even that a close failed (`ReleaseHidesProgress`).
- A resized volume passes the eligibility check for a fresh source if and only if its clusters are single
  sectors (`FreshSourceExactly`).

## Model

| member | source | states |
|---|---|---|
| Gpt.NormalizeSnapshot | linux/ro_installer_gpt.py:49-82 | the loops with two identity sets, the sort and the neighbour scan accept exactly the admissible inventories within the JSON limit, in any row order, and return them sorted |
| Gpt.NormalizeIsNormal | linux/ro_installer_gpt.py:49-82 | normalising yields normal inventories and is the identity on exactly those |
| Gpt.OverlapScan | linux/ro_installer_gpt.py:78-79 | comparing neighbours after the sort decides whether any two rows overlap |
| Gpt.SectorArithmetic | linux/ro_installer_gpt.py:55-60 | the sector arithmetic of the model is plain multiplication, division and remainder |
| Gpt.EntryArithmetic | linux/ro_installer_gpt.py:58-60 | and so is the size of an entry array |
| GptReader.ParseEntries | linux/ro_installer_gpt.py:120-128 | the slot loop returns the occupied rows, or refuses on extension bytes in a used slot or a 33rd used slot, and for nothing else |
| GptReader.EntriesLemma | linux/ro_installer_gpt.py:121-127 | a row is listed if and only if its slot is occupied and holds exactly that row |
| GptReader.EntriesIncreasing | linux/ro_installer_gpt.py:121-127 | rows come in slot order, each slot at most once |
| GptReader.ReservedFits | linux/ro_installer_gpt.py:112-117 | the reserved sectors always hold the whole array, so the slices of the reader stay inside what it read |
| GptReader.DecodedRows | linux/ro_installer_gpt.py:85-133 | after all checks and the sort, the inventory shows exactly the occupied slots of the array |
| GptPrinter.RowReadsBack | linux/ro_installer_gpt.py:120-127 | every row with fields of 64 bits, printed with any name, is decoded as itself; the name plays no part |
| GptPrinter.SlotExactly | linux/ro_installer_gpt.py:122-127 | the reader accepts a slot if and only if it is unused or was printed from a row of its number |
| GptPrinter.ArrayReadsBack | linux/ro_installer_gpt.py:120-128 | an array printed from rows of distinct numbers decodes to exactly those rows |
| GptPrinter.HeaderReadsBack | linux/ro_installer_gpt.py:103-109 | a printed header passes every check, and each of its fields reads back |
| GptPrinter.HeaderExactly | linux/ro_installer_gpt.py:101-109 | the header check accepts exactly the sectors that are printed headers of that place |
| GptPrinter.CopiesExactly | linux/ro_installer_gpt.py:111 | two headers agree if and only if they are one header but for its own place, the other copy's and the array's |
| GptPrinter.MbrExactly | linux/ro_installer_gpt.py:94-100 | the MBR check accepts exactly the sectors that are printed protective MBRs of a disk of that size |
| GptPrinter.TableExactly | linux/ro_installer_gpt.py:94-128 | before the rows are compared with each other, the reader accepts exactly the tables that are printed ones |
| GptPrinter.PrintedTableIsDecoded | linux/ro_installer_gpt.py:85-133 | every admissible inventory, printed with any names and any boot area, is decoded as itself, the JSON limit apart |
| FreeExtents.AlignmentArithmetic | linux/ro_installer_gpt.py:275-276 | the rounding used in the model is the quotient arithmetic of the program for both sector sizes |
| FreeExtents.FindGaps | linux/ro_installer_gpt.py:267-273 | the cursor loop computes the gap list |
| FreeExtents.GapsAreMaximal | linux/ro_installer_gpt.py:267-273 | an extent is listed if and only if it is a maximal run of free usable sectors |
| FreeExtents.FreeSectorHasGap | linux/ro_installer_gpt.py:267-273 | every free sector lies in a listed gap |
| FreeExtents.Tiling | linux/ro_installer_gpt.py:267-273 | partitions and gaps together have exactly as many sectors as the usable range |
| FreeExtents.AlignedRoom | linux/ro_installer_gpt.py:274-277 | some gap has room between its aligned ends if and only if an aligned free run of that length exists |
| ShrinkPlan.PlanShrink | linux/ro_installer_gpt.py:237-304 | slot search, gap loops and placement compute the plan, with every refusal |
| ShrinkPlan.LowestSlot | linux/ro_installer_gpt.py:264-266 | the loop finds the lowest unused slot, or that there is none |
| ShrinkPlan.FollowingGap | linux/ro_installer_gpt.py:279-283 | the loop finds the end of the gap directly behind the source, if there is one |
| ShrinkPlan.UnnecessaryExactly | linux/ro_installer_gpt.py:274-278 | refused as unnecessary if and only if an aligned run of the root size is entirely free |
| ShrinkPlan.SecondCheckIsDead | linux/ro_installer_gpt.py:286-287 | the second such refusal never fires |
| ShrinkPlan.PlanIsSafe | linux/ro_installer_gpt.py:279-304 | an accepted plan uses an unused slot and an aligned extent of source and free sectors only, of the requested size, with the source cut right before it; the two selected rows have the right types, no attributes and their floors |
| ShrinkPlan.PlanExactly | linux/ro_installer_gpt.py:237-304 | there is a plan if and only if two rows of the right kinds, a free slot and a place for the root meet the stated sizes and no free run would do; and which plan it then is |
| ShrinkPlan.RootStartIsLargest | linux/ro_installer_gpt.py:279-285 | no aligned run of source and free sectors of the root size starts later, so the most source is kept |
| ShrinkPlan.RetainedMeetsGuards | linux/ro_installer_gpt.py:288-292 | retained bytes are whole MiB, below the source size, at least 40 GiB and 1 GiB above the minimum |
| CreatePlans.PlanCompact | linux/ro_installer_gpt.py:216-234 | the loops over gaps and slots compute the compact plan or refuse |
| CreatePlans.CompactIsSafe | linux/ro_installer_gpt.py:220-234 | the selection is a maximal gap; both new partitions lie in it, aligned, in two unused slots, meet their floors, and waste no aligned unit on either side; the first is an EFI system partition in the lowest unused slot, the second a Linux one in the next |
| CreatePlans.CompactExactly | linux/ro_installer_gpt.py:216-234 | there is a plan if and only if the selection is a maximal gap, two slots are unused, and an ESP of 512 MiB and a root of 40 GiB fit between its aligned ends |
| CreatePlans.CompactReadableExactly | linux/ro_installer_gpt.py:216-234 | afterwards the inventory is accepted again if and only if two more rows fit under the limit of 32 and the JSON limit allows it |
| CreatePlans.CompactCanOverflow | linux/ro_installer_gpt.py:226-234 | a concrete inventory of 31 rows that passes, is planned, and is then refused; its own JSON text is within the limit |
| CreatePlans.PlanManual | linux/ro_installer_gpt.py:493-553 | both turns of the role loop, with the shared set of used slots, compute the manual plan or refuse |
| CreatePlans.ManualIsSafe | linux/ro_installer_gpt.py:516-552 | created roles use unused slots and aligned free sectors, reused ones are the selected rows; in both cases the ESP has the EFI system type and the root the Linux one; created extents are as chosen, in the lowest slot that no row and no earlier role uses; the two differ in slot and extent and meet their floors |
| CreatePlans.ManualExactly | linux/ro_installer_gpt.py:493-553 | there is a plan if and only if each choice names a fitting row or free aligned sectors, the two are apart, and slots are left for the created ones; and which plan it then is |
| CreatePlans.ManualStaysReadable | linux/ro_installer_gpt.py:500-553 | afterwards the inventory is accepted again, the JSON limit apart |
| Preservation.MaskHeaderInPlace | linux/ro_installer_gpt.py:184-186 | blanking the two CRC fields of a header buffer |
| Preservation.MaskArrayInPlace | linux/ro_installer_gpt.py:187-191 | blanking the source's end field and the root slot of an array buffer |
| Preservation.MaskedHeadersAgree | linux/ro_installer_gpt.py:184-186 | masked headers are equal if and only if the headers agree outside both CRC fields |
| Preservation.MaskedArraysAgree | linux/ro_installer_gpt.py:188-191 | masked arrays are equal if and only if the arrays agree outside the source end and the root slot |
| Preservation.ObservedExactly | linux/ro_installer_gpt.py:174-183 | a readable table is observed if and only if both slots exist and differ, the source is a basic data row without attributes, and the root slot is unused or holds a Linux row without attributes |
| Preservation.FramingInjective | linux/ro_installer_gpt.py:196-197 | the length-prefixed framing of the five buffers is injective |
| Preservation.ProofInjective | linux/ro_installer_gpt.py:192-198 | equal digest inputs mean equal size, sector, placement, slots and masked bytes |
| Preservation.PreservationSound | linux/ro_installer_gpt.py:168-198 | equal proofs force every byte of the MBR, both headers and both arrays to agree, except source end, root slot and CRC fields |
| Preservation.OtherRowsIdentical | linux/ro_installer_gpt.py:187-191 | every other entry is byte-identical, name and padding included |
| UpdatePlan.PatchArrayInPlace | linux/ro_installer_gpt.py:422-428 | writing the source end and the new root entry into an array buffer |
| UpdatePlan.PatchHeaderInPlace | linux/ro_installer_gpt.py:430-433 | writing the array CRC and then the header's own CRC into a header buffer |
| UpdatePlan.RootEntryIsPrinted | linux/ro_installer_gpt.py:424-427 | the new entry is the planned row as the writer prints it, without a name |
| UpdatePlan.NewHeaderOk | linux/ro_installer_gpt.py:430-433 | the patched header passes every check of the reader |
| UpdatePlan.NewSlots | linux/ro_installer_gpt.py:422-428 | slot by slot, the patched array holds the root row, the cut source row, or the old row |
| UpdatePlan.NewEntriesLength | linux/ro_installer_gpt.py:424-428 | the patched array shows exactly one row more |
| UpdatePlan.NewUsedAgree | linux/ro_installer_gpt.py:418-428 | both patched arrays agree over the used slots if the old ones did |
| UpdatePlan.NewPreimage | linux/ro_installer_gpt.py:418-435 | the patches leave the preservation digest input unchanged |
| RoundTrip.VerifyLayout | linux/ro_installer_gpt.py:361-387 | the check with its loop over expected rows accepts exactly the planned inventory with the approved proof |
| RoundTrip.ExpectedRows | linux/ro_installer_gpt.py:378-384 | the expected list is ascending and consists of the root, the cut source and the untouched rows |
| RoundTrip.DecodeAfterUpdate | linux/ro_installer_gpt.py:418-442 | the reader decodes the patched table to the planned inventory, or the JSON limit stops it |
| RoundTrip.UpdateRoundTrip | linux/ro_installer_gpt.py:390-445 | for every approved table, plan and fresh GUID the patched table is observed as the planned inventory with the same proof and passes the layout check; only the JSON limit can prevent it |
| Images.RegionsApart | linux/ro_installer_gpt.py:112-116 | the five metadata regions lie on the disk, pairwise disjoint and disjoint from all usable sectors |
| Images.CarriesRead | linux/ro_installer_gpt.py:94-116 | what the reader captured is what the image holds in the five regions |
| Images.ReadCarries | linux/ro_installer_gpt.py:94-116 | an image that holds a table in the five regions is read as that table |
| Images.PatchedImageReads | linux/ro_installer_gpt.py:390-445 | the round trip on whole disk images, patches applied at their offsets |
| Disk.BlockDevice.Pread | linux/ro_installer_ntfs_commit.py:75 | a read raises or returns bytes; without another writer they are a prefix of the true ones, and all of them unless a fault is counted |
| Disk.BlockDevice.Pwrite | linux/ro_installer_ntfs_commit.py:76 | any prefix of a write reaches the cache, and then it returns the count or raises |
| Disk.BlockDevice.Fsync | linux/ro_installer_ntfs_commit.py:77 | a flush makes everything durable or changes nothing known |
| Disk.QuietSurvives | linux/ro_installer_ntfs_commit.py:121-133 | a region no unflushed write touches survives every crash |
| TableIo.ReadTable | linux/ro_installer_gpt.py:89-116 | five bounded reads, placed by the headers and recorded in the trace, give the table or nothing; without another writer it is the table the disk holds, and nothing is given only if that has no readable table or a read failed |
| TableIo.DecodeTable | linux/ro_installer_gpt.py:94-133 | the checks in program order compute the decoded inventory |
| TableIo.ObserveTable | linux/ro_installer_gpt.py:168-198 | masking in place and framing compute inventory and proof |
| TableIo.VerifiedNtfsSnapshot | linux/ro_installer_gpt.py:201-207 | the table was read in two whole passes, one after the other, and both passes decode to the same inventory and proof; nothing is written; without another writer and without a fault it succeeds if and only if the disk holds such a table |
| TableIo.NtfsGptUpdatePlan | linux/ro_installer_gpt.py:390-445 | reads only; what it returns is the approved table, its plan and exactly the patches they call for; without another writer and without a fault it succeeds if and only if the disk holds the approved table and the patched one is within the JSON limit |
| Commit.CheckView | linux/ro_installer_ntfs_commit.py:115-120 | it succeeds only if two passes, one after the other, each read every watched region and each returned the expected bytes; nothing is written; without another writer and without a fault it succeeds if and only if the disk shows them |
| Commit.WriteGroup | linux/ro_installer_ntfs_commit.py:125-131 | array then header in full, then the flush; on any fault a prefix of that, and only bytes of the group are pending; it succeeds if and only if there was no fault |
| Commit.CommitGroup | linux/ro_installer_ntfs_commit.py:121-133 | one turn: no write before guard and two full matching passes, success only after the read-back, every disk state on the way belongs to this group, `wrote` is exact |
| CrashSafety.OldPrimaryComplete | linux/ro_installer_gpt.py:101-119 | the approved table's primary copy is complete, points at its own array and shows the old inventory |
| CrashSafety.NewBackupComplete | linux/ro_installer_gpt.py:418-435 | the patched backup copy is complete, points at its own array and shows the planned inventory |
| CrashSafety.BackupPhase | linux/ro_installer_ntfs_commit.py:121-133 | while the backup is written the old primary and the MBR survive every crash |
| CrashSafety.PrimaryPhase | linux/ro_installer_ntfs_commit.py:121-133 | while the primary is written the new backup and the MBR survive every crash |
| CrashSafety.Footprint | linux/ro_installer_ntfs_commit.py:121-133 | no crash in any state changes a byte outside the four written regions |
| CrashSafety.UsableUntouched | linux/ro_installer_gpt.py:114-115 | in particular no byte of any partition or gap |
| CrashSafety.EveryCrashRecoverable | linux/ro_installer_ntfs_commit.py:121-133 | in every state of a commit, every possible crash image holds a complete copy: the old primary until the backup is flushed, and the new backup from then on |
| GptCommit.CommitNtfsGpt | linux/ro_installer_ntfs_commit.py:90-142 | every run: the journal is a prefix of the six planned events, the outcome tells exactly what was attempted and verified, every state since the start is crash-safe; success means both copies verified, then the table read again in two passes that pass the layout check, then, as the last event, the guard granted, with no call refused or short; and, from a clean start, exactly the patched image on the disk with nothing unflushed, which the reader sees as the reported result; on a clean disk of its own and without a fault it succeeds if and only if the disk held the approved table |
| GptCommit.CommitTurn | linux/ro_installer_ntfs_commit.py:121-133 | one turn of the loop extends the finished copies by one, checked before its first write and verified after its last, or stops with a truthful error; the disk passes only through states of that turn |
| GptCommit.VerifyCommit | linux/ro_installer_ntfs_commit.py:134-139 | the last phase only reads; it succeeds if and only if its last event is the granted guard, which comes directly after the two passes that read its result; that is what the reader sees on the disk if nobody else writes, and then, without a fault, it succeeds if and only if the disk shows a table that passes the layout check; its failures report both copies verified |
| GptCommit.StatesAreSafe | linux/ro_installer_ntfs_commit.py:121-133 | crash safety lifts from states to whole histories |
| Outcome.FailuresAreAdmitted | linux/ro_installer_ntfs_transaction.py:147-156 | every failure report built from consistent progress, and every fallback, is admitted unchanged with its exit status |
| Outcome.AdmittedExactly | linux/ro_installer_ntfs_commit.py:434-452 | a failure report is admitted if and only if its exit status is 2 and the worker can build it from consistent progress |
| Outcome.UnknownOutcomeIsAdmitted | linux/ro_installer_ntfs_commit.py:409-414 | every value of `ntfs_unknown_outcome` is admitted unchanged |
| Outcome.FingerprintDecides | linux/ro_installer_gpt.py:129-133 | two decoded tables with one fingerprint are the same five buffers |
| Outcome.SuccessIsAdmitted | linux/ro_installer_ntfs_commit.py:417-433 | a witnessed success passes the consumer: its fingerprint is never the stale one |
| Machine.RunNativeResize | linux/ro_installer_ntfs.py:337-423 | True only after a child that exited alone and a synced source; it is returned if and only if no call and no close failed; `started` is exact; the duplicate is always closed, and a failing close is always reported |
| Transaction.ResizeSource | linux/ro_installer_ntfs_commit.py:219-229 | the only way to the table: child done, source synced, inspection passed; the way is taken if and only if nothing was refused; the change flag is exact |
| Transaction.CommitFacts | linux/ro_installer_ntfs_commit.py:237-245 | what the commit accounts for is exactly what the transaction reports |
| Transaction.CloseCopies | linux/ro_installer_ntfs_commit.py:249-254 | each duplicate is closed exactly once; the first error keeps phase and progress; the clean-up flag is raised if a close failed, and nothing changes if none did |
| Transaction.ResizeAndCommit | linux/ro_installer_ntfs_commit.py:173-255 | no table write before the native steps and the inspection; on every path descriptors are as before and only transaction errors are raised; the error's phase is where the run stopped, with exactly the steps, table events and verified copies of that phase, and it hides no failing close; every disk state in between is crash-safe; success means the result was read after both copies were verified and the disk holds the patched image, with nothing refused; on a clean disk of its own and with nothing refused it succeeds if and only if the disk held the approved table |
| KernelTransition.BlockNtfsTransaction.Acquire | linux/ro_installer_ntfs_commit.py:267-291 | an open object that owns what it opened, or nothing left open; with nothing refused there is an object if and only if inventory and plan are accepted and the disk has that size |
| KernelTransition.BlockNtfsTransaction.CloseSources | linux/ro_installer_ntfs_commit.py:301-310 | every source descriptor is forgotten and closed once, whatever fails; an error exactly if a close failed |
| KernelTransition.BlockNtfsTransaction.Close | linux/ro_installer_ntfs_commit.py:312-322 | repeated or failing closes leave nothing open and raise the flag exactly when one failed |
| KernelTransition.BlockNtfsTransaction.AwaitKernel | linux/ro_installer_ntfs_commit.py:348-363 | polling only reads; it ends with the committed table if and only if the latest comparison with the kernel's layout agreed, all before it having disagreed, and the table was read in two whole passes right before it; without another writer and with nothing refused it ends so if and only if the disk holds that table |
| KernelTransition.BlockNtfsTransaction.KernelPhases | linux/ro_installer_ntfs_commit.py:339-386 | at most one re-read, issued while no source descriptor is held; the phase tells whether it was issued; ready only at the end, after the kernel agreed twice, each time with a whole reading of the table between, the first of them after the re-read; the second inspection found the figures of the first |
| KernelTransition.BlockNtfsTransaction.Run | linux/ro_installer_ntfs_commit.py:330-401 | a second run changes nothing and is refused; steps in their only order, with the re-read after the read-back of both copies; success means all of them, the result witnessed, the disk holding the patched image, the kernel in agreement twice after the re-read, equal figures from both inspections and nothing refused; on a clean disk of its own, with nothing refused, it is reached if and only if the disk held the approved table and the figures are equal; the error of a failure has the phase where the run stopped, which tells whether the kernel had come to agree, the flags and copies of that phase, and hides no failing close; no source descriptor survives, and how the run ended is recorded |
| KernelTransition.RunRepeatedly | linux/ro_installer_ntfs_commit.py:330-333 | however often one object is run, the native child is started at most once |
| KernelTransition.AfterCommit | linux/ro_installer_ntfs_commit.py:338-391 | the kernel phases keep the commit's account, add at most the one re-read, and issue it only after both copies were read back |
| Worker.TrustedContext.Acquire | linux/ro_installer_ntfs_transaction.py:58-89 | three descriptors, all open, if and only if nothing was refused; otherwise none left open |
| Worker.TrustedContext.Close | linux/ro_installer_ntfs_transaction.py:114-123 | each is closed once, whatever fails; an error exactly if a close failed |
| Worker.InsideTransaction | linux/ro_installer_ntfs_transaction.py:172-179 | the disk descriptor is handed over once and the scope variables stay accurate |
| Worker.WithTransaction | linux/ro_installer_ntfs_transaction.py:167-187 | descriptors are balanced over the whole transaction scope and its `finally`; the transaction's own error survives with phase and progress, its flag raised if and only if it was or a close failed |
| Worker.WithInhibitor | linux/ro-installer-session:144-154 | exactly if closing the inhibitor's own descriptor fails is the error of a failed run replaced; a finished run stays finished |
| Worker.WithContext | linux/ro_installer_ntfs_transaction.py:164-187 | the two outer scopes together, for a schedule of closes: what survives of the recorded error of the run |
| Worker.ReleaseHidesProgress | linux/ro-installer-session:151-154 | on the schedule on which only the inhibitor's close fails, every failed run, whatever it has verified, is reported as unknown, with no copies and no failed clean-up |
| Worker.ConclusionIsConservative | linux/ro_installer_ntfs_transaction.py:188-193 | the report never understates, and is exact where it claims to know |
| Worker.ConclusionIsAdmitted | linux/ro_installer_ntfs_transaction.py:188-193 | the consumer admits every such report unchanged |
| Worker.Perform | linux/ro_installer_ntfs_transaction.py:159-193 | every run of `execute`: nothing left open; the report is a function of how the recorded run ended and which closes failed, and without a run its phase tells what was opened last; it keeps the first error's phase, flags and copies, with the clean-up flag only raised, if and only if closing the power inhibitor works; conservative and admitted; success only after all steps, with the patched image on the disk and nothing refused; on a clean disk of its own, with nothing refused, success if and only if the disk held the approved table and both inspections agreed; every disk state on the way crash-safe |
| Worker.RunWorker | linux/ro_installer_ntfs_transaction.py:196-212 | everything `main` prints is such a report, admitted with its exit status; with nothing refused on a clean disk of its own it says success if and only if the frame was an approval of the table the disk held and both inspections agreed; a crash at any point of the run leaves a complete copy of the table |
| NtfsGeometry.TailSlack | linux/ro_installer_ntfs.py:76-78 | for targets of whole MiB the volume ends one cluster less one sector before the partition, and the boot sector total agrees |
| NtfsGeometry.ResizedMeaning | linux/ro_installer_ntfs.py:47-80 | acceptance means: only the three size fields changed, the copy stands at the end of the target, and the total is the expected volume |
| NtfsGeometry.EligibleExactly | linux/ro_installer_ntfs.py:30-44 | a source is eligible if and only if it starts and ends with one boot sector, as an independent writer prints it, that describes it |
| NtfsGeometry.ResizedExactly | linux/ro_installer_ntfs.py:47-80 | a resize is accepted if and only if it goes from a printed boot sector that described the source to one that differs in the three size fields and fits the target, at both ends of it |
| NtfsGeometry.ResizedIsMinimum | linux/ro_installer_ntfs.py:541-557 | the checker of the result accepts exactly what the checker of a source would accept of a partition already cut to the target |
| NtfsGeometry.CheckersAgree | linux/ro_installer_ntfs.py:470-485 | the dry-run checker and the post-resize checker expect exactly the volume of the resized boot sector |
| NtfsGeometry.OriginalStaysValid | linux/ro_installer_ntfs.py:30-66 | a source accepted before can later be refused only for what the resize left |
| NtfsGeometry.FreshSourceExactly | linux/ro_installer_ntfs.py:30-44 | the resized volume passes the check for a fresh source if and only if clusters are single sectors |
| NtfsGeometry.PlanMeetsGuards | linux/ro_installer_ntfs.py:347-353 | the target of an accepted plan passes the runner's and the preparation's size guards if and only if the source is at most 8 TiB |
| Observation.SuccessExactly | linux/ro_installer_records.py:341-382 | a finished report says success if and only if the last accepted verdict said success and the exit status was 0 |
| Observation.SilentSessionIsNoSuccess | linux/ro_installer_records.py:349-363 | a session without a verdict never ends in success |
| Observation.FinishedIsFrozen | linux/ro_installer_records.py:244-248 | after the end no call changes anything but the log state |
| Observation.FinishStopsEverything | linux/ro_installer_records.py:364-373 | an item is still running after the end if and only if it ran before and the error code is outside the schema |
| Observation.VerdictIsLatest | linux/ro_installer_records.py:341-347 | over every sequence of events and verdicts the five fields that only a verdict sets are those of the latest accepted one, and the fields that only the end sets are untouched |
| Observation.FailedStageIsFirst | linux/ro_installer_records.py:267-273 | over every sequence of events and verdicts the failed stage is the one the latest verdict names, or else that of the first stage end after it that failed or was interrupted |
| Observation.SuccessfulStageIsLatest | linux/ro_installer_records.py:267-271 | the last successful stage is the one named by the latest successful stage end or verdict |
| Observation.FailedOperationIsLatest | linux/ro_installer_records.py:259-260 | operation and exit code are those of the latest command that failed |
| Observation.StageShowsLatest | linux/ro_installer_records.py:266-268 | every stage shows the status and duration of its latest event |
| Observation.SpanShowsLatest | linux/ro_installer_records.py:275-277 | every span shows the status and duration of its latest event that was let in |
| Observation.SpansNest | linux/ro_installer_records.py:250-258 | a span that is let in opens on top of the others; only the end of the one on top closes it, and then the stack is as before |
| Observation.CurrentStageIsLatest | linux/ro_installer_records.py:266-274 | the current stage is that of the latest stage event, if that was a start |
| Observation.StartIsLatest | linux/ro_installer_records.py:261-265 | the recorded start of a stage or span is the clock at its latest start, unless it has ended since |
| Observation.FinishDecides | linux/ro_installer_records.py:353-363 | what the end makes of status, error and earlier verdict, case by case |
| Observation.InterruptOne | linux/ro_installer_records.py:364-373 | an interruption changes only its own item, and records the clamped time since its observed start |
| Recorder.File.WriteAll | linux/ro_installer_records.py:229-235 | the loop ends; the file gains a prefix of the data, all of it exactly on success |
| Recorder.Recorder.constructor | linux/ro_installer_records.py:130-158 | a valid recorder with an empty log; what it starts as follows exactly from the decision of the store and the faults of its first save |
| Recorder.Recorder.Admit | linux/ro_installer_records.py:209-224 | a session that is turned away is unavailable with that reason; an admitted one has its log and directory open, is unavailable if and only if closing its first temporary file fails, and otherwise records with its summary stored or is marked as failed |
| Recorder.Recorder.Checkpoint | linux/ro_installer_records.py:301-339 | the summary stays or becomes the whole report; it raises if and only if it gets as far as the temporary file and closing that fails; every other failure is latched |
| Recorder.Recorder.Replace | linux/ro_installer_records.py:320-339 | temporary file, sync, rename and clean-up: whole replacement or none, and at no moment more bytes than the reservation; it raises if and only if the close fails |
| Recorder.Recorder.Track | linux/ro_installer_records.py:249-277 | stage, span, command and clock bookkeeping as a function of event and clock only |
| Recorder.Recorder.Append | linux/ro_installer_records.py:279-299 | one whole record with the next number is added, or the log is closed for good |
| Recorder.Recorder.Observe | linux/ro_installer_records.py:242-299 | the report's core follows the reference function whatever the log does; the log only grows, and not once it has left the recording state; an invalid call after the end only degrades the log state |
| Recorder.Recorder.Outcome | linux/ro_installer_records.py:341-347 | the core follows the reference function, so a verdict that is taken over replaces its seven fields and no other, and success means it is on disk; it raises if and only if it is a valid verdict before the end whose save raises |
| Recorder.Recorder.Interrupt | linux/ro_installer_records.py:364-373 | one running item is ended with the clamped time since its observed start |
| Recorder.Recorder.Conclude | linux/ro_installer_records.py:353-363 | the verdict on a session that ends, by status, error and earlier verdict |
| Recorder.Recorder.EndSession | linux/ro_installer_records.py:374-377 | the supervisor duration and the last record |
| Recorder.Recorder.Seal | linux/ro_installer_records.py:378-380 | the log is no longer recording, and the summary is the report unless logging failed or the save raised |
| Recorder.Recorder.Finish | linux/ro_installer_records.py:349-382 | the core follows the reference function; the returned report is the one on disk unless it says unavailable or failed; it raises if and only if its final save does |
| Recorder.Recorder.Perform | linux/ro_installer_records.py:242-382 | one call saves if and only if it is a verdict that is taken over or the end, and raises if and only if that save meets a failing close; its effect on the core is that of the reference function |
| Recorder.Recorder.Run | linux/ro_installer_records.py:242-382 | over whole sessions, under every fault schedule, the core is the reference function of the calls done; a session stops early exactly at the first call whose save meets a failing close, never if closing works |
| Recorder.TwoRuns | linux/ro_installer_records.py:242-382 | two sessions with the same calls and clock agree with one reference on the calls each did, so with each other when both did as many; neither is stopped early while its own closes work; success is decided by verdict and status alone |
| Recorder.LinesAreRecords | linux/ro_installer_records.py:76-77 | splitting at newlines gives back exactly the records, in order |
| Recorder.LogReadsBack | linux/ro_installer_records.py:279-299 | a log is records 1..n and at most a torn tail, which splitting drops |
| RecordStore.AlwaysSane | linux/ro_installer_records.py:168-208 | in every schedule a session that grows holds between its least summary and its reservation, any other at most one summary, and the count stays within the limit (at least one) |
| RecordStore.SessionCountExactly | linux/ro_installer_records.py:203-205 | the count respects the limit in all schedules if and only if the limit is at least 1 or nothing is admitted |
| RecordStore.CalmRunsKeepQuota | linux/ro_installer_records.py:166-208 | if no session is counted below what it holds, charged and held bytes never exceed the quota |
| RecordStore.CrowdedKeepsQuota | linux/ro_installer_records.py:168-224 | in every schedule under such limits nothing is undercounted while a start still fits, so charged and held bytes stay within the quota |
| RecordStore.QuotaExactly | linux/ro_installer_records.py:168-208 | with sessions of any size from the least summary to the reservation, over all schedules held bytes stay within the quota if and only if the session limit alone guarantees it, or no start fits behind a session that has stored a summary |
| RecordStore.ShippedLimitsCanOverfill | linux/ro-installer-observability.json:95-103 | a schedule exceeds the shipped quota, whatever the least size of a summary is |
| Qga.ScanFindsFirst | linux/qga_client.py:31-47 | the byte-by-byte reader stops right behind the first delimited answer, and only there |
| Qga.NoiseThenAnswer | linux/qga_client.py:31-47 | noise without an answer followed by the delimited answer is read up to the answer |
| Qga.FirstAnswerExactly | linux/qga_client.py:31-53 | for every cutting into pieces the client stops behind the first answer if and only if no later delimiter shares its piece |
| Qga.AnswerCanBeMissed | linux/qga_client.py:36-38 | for every answer, a piece that holds it whole and throws it away |
| Qga.Client.Synchronize | linux/qga_client.py:31-53 | the loop computes the piecewise reader and leaves exactly its rest in the buffer |
| Qga.Client.Reply | linux/qga_client.py:75-82 | the next line of the unread stream, whatever the pieces; too large only beyond 8 MiB |
| Qga.Connect | linux/qga_client.py:31-53 | after noise and our answer the unread stream is exactly what followed the answer |
| Qga.TwoReplies | linux/qga_client.py:75-82 | equal streams cut differently give equal lines |
| PowersOfTwo.BitTrick | linux/ro_installer_manual.py:173 | `c & (c - 1) == 0` holds exactly for powers of two |
| EfiBudget.ClusterExactly | linux/ro_installer_manual.py:173 | the accepted cluster sizes are the powers of two from 512 bytes to 1 MiB |
| EfiBudget.Walker.Walk | linux/ro_installer_manual.py:178-213 | the recursive walk with shared counters accepts exactly the well-formed trees within the limits, and its counters are the sums over the tree |
| EfiBudget.SourceBudget | linux/ro_installer_manual.py:172-224 | refused exactly when cluster or tree is inadmissible, and otherwise the recursive rounded sum plus slack; acceptance of the tree does not depend on the cluster |
| EfiBudget.EntryAdds | linux/ro_installer_manual.py:209-223 | no entry needs four clusters and 16 MiB; each entry adds two clusters and its file in whole clusters, or what its own entries add |
| EfiBudget.BudgetMonotone | linux/ro_installer_manual.py:209-223 | the budget at a smaller admissible cluster is at most that at a larger one |
| EfiBudget.NewPartitionSuffices | linux/ro_installer_manual.py:255-258 | room that suffices at 1 MiB clusters suffices at every admissible cluster size |

## Left out

- The native child's own writes to the source partition: the disk of `Disk` holds only what the worker writes; the child appears as the steps of `Machine`.
- Write caches are modelled per byte; a device that loses flushed data or reorders across a reported flush is not.
- Crash safety and truthful reads assume no other writer (`exclusive`) and nothing unflushed at the start; with another writer only what was read back is claimed.
- Descriptor bindings, leases, namespaces, what the power inhibitor asks of the login manager, tool versions and the regular expressions over tool output: one nondeterministic check each, or numbers taken as given. So is each comparison with the kernel's layout, but its outcome is recorded.
- JSON and UUID text, the syntax of device numbers, and type and key checks of dictionaries: values are typed; the JSON size limit is a parameter.
- CRC-32 and SHA-256 themselves.
- Resource limits, frame parsing and environment variables of the worker, apart from success or refusal.
- `BlockGptIo` is folded into `BlockNtfsTransaction`, and its `__exit__` into `Worker.LeaveTransaction`.
- The order of refusals inside one function where all of them raise the same kind of error.
- The polling deadline of the kernel phase is any finite number of turns; the timeouts of the native child are failures at any point.
- KeyboardInterrupt and other exceptions that the program does not catch.
- `read_snapshot` with `preserve_slots`, `normalize_ntfs_confirmation` and `manual_intent_choices`: weaker forms of what is modelled.
- Opening and trusting the record store (`open_store`, `trusted`) and `Recorder.close`: a start is taken or refused; counters of I/O calls.
- `valid_report` and the schema interpreter: payloads and verdicts are typed, with their ranges and enumerations.
- RecordStore.QuotaExactly: a session's three files are one size. While the session is active and has stored a summary, a start may read any value from the least summary to the reservation, and a session may reach any of them; which of these mixtures the real encoder and the order of the single reads allow is not modelled.
- EfiBudget.Walker.Walk: the tree does not change during the walk; inode comparison is left out.
- Socket, deadline and JSON parsing of the guest agent client: pieces arrive until there are no more, and whether a line is our answer is a parameter.
- The remaining scripts of the repository: packaging, release, user interface, test harness, and the preload adapter in C.
