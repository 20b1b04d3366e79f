/** What is left of the table after a crash at any point of a commit. */
module CrashSafety {
  import opened Bytes
  import opened Gpt
  import opened GptReader
  import opened ShrinkPlan
  import opened Preservation
  import opened UpdatePlan
  import opened RoundTrip
  import opened Images
  import opened Disk
  import opened TableIo
  import opened Commit

  /** One complete copy of a table: a valid header that points at the array's sector and whose
      array CRC holds, showing these rows. */
  ghost predicate CompleteCopy(o: Oracles, header: Bytes, table: Bytes, lba: int, alternate: int, tableLba: int,
                               rows: seq<Part>) {
    && |header| >= 512 && HeaderOk(o, header, lba, alternate) && U64(header, 72) == tableLba
    && Holds(table, U32(header, 84), U32(header, 80))
    && o.Crc(Used(table, U32(header, 84), U32(header, 80))) == U32(header, 88)
    && Sort(Entries(table, U32(header, 84), U32(header, 80))) == rows
  }

  /** The rows depend on the used slots only. */
  lemma {:induction false} EntriesOfUsed(a: Bytes, b: Bytes, entry: nat, n: nat, count: nat)
    requires Holds(a, entry, count) && Holds(b, entry, count) && n <= count
    requires Used(a, entry, count) == Used(b, entry, count)
    ensures Holds(a, entry, n) && Holds(b, entry, n)
    ensures Entries(a, entry, n) == Entries(b, entry, n)
  {
    if n > 0 {
      EntriesOfUsed(a, b, entry, n - 1, count);
      RowOfUsed(a, entry, n - 1, count);
      RowOfUsed(b, entry, n - 1, count);
    }
  }

  lemma RowOfUsed(a: Bytes, entry: nat, n: nat, count: nat)
    requires Holds(a, entry, count) && n < count
    ensures Holds(a, entry, n + 1) && Holds(Used(a, entry, count), entry, n + 1)
    ensures Row(a, entry, n) == Row(Used(a, entry, count), entry, n)
  {
    assert EntrySpan(n, entry) <= EntrySpan(n + 1, entry) <= EntrySpan(count, entry);
  }

  /** Before the commit, the primary copy is complete and shows the old inventory. */
  lemma OldPrimaryComplete(o: Oracles, p: Proposal, guid: Guid, proof: Digest, u: Update)
    requires Justified(o, p, guid, proof, u)
    ensures CompleteCopy(o, u.captured.ph, u.captured.pa, 1, Total(u.before) - 1, u.before.primaryLba, u.before.parts)
  {
    hide PlanFor, FreshGuid, NewMetadata, ProofPreimage, Decode, GeometryOk;
    assert Decode(o, u.captured, u.before.device, u.before.sector) == Some(u.before);
    hide Observe;
    DecodedCopy(o, u.captured, u.before);
  }

  lemma DecodedCopy(o: Oracles, m: Metadata, s: Snapshot)
    requires SectorOk(s.sector) && Shaped(m, s.sector) && Decode(o, m, s.device, s.sector) == Some(s)
    ensures CompleteCopy(o, m.ph, m.pa, 1, Total(s) - 1, s.primaryLba, s.parts)
    ensures CompleteCopy(o, m.bh, m.ba, Total(s) - 1, 1, s.backupLba, s.parts)
  {
    var entry, count := EntryBytes(m), EntryCount(m);
    hide HeaderOk, Entries, EntrySpan, Admissible;
    EntriesOfUsed(m.pa, m.ba, entry, count, count);
  }

  /** The new backup copy is complete and shows the planned inventory. */
  lemma NewBackupComplete(o: Oracles, p: Proposal, guid: Guid, proof: Digest, u: Update)
    requires Justified(o, p, guid, proof, u)
    ensures CompleteCopy(o, u.changed.bh, u.changed.ba, Total(u.before) - 1, 1, u.before.backupLba,
                         ExpectedParts(u.before.parts, u.plan, guid))
  {
    var c, n, post := UpdateRoundTrip(o, p, u.before, u.plan, guid, u.captured, proof);
    hide PlanFor, FreshGuid, NewMetadata, ProofPreimage, ExpectedParts, VerifyCreatedLayout;
    assert Decode(o, n, u.before.device, u.before.sector) == Some(post);
    hide Observe;
    DecodedCopy(o, n, post);
  }

  /** After the crash: the old primary copy is complete until the new backup is flushed, and the
      new backup copy from then on; the protective MBR is intact, and nothing outside the four
      table regions has changed. */
  ghost predicate Recoverable(o: Oracles, s: Snapshot, rows: seq<Part>, d: Bytes, img: Bytes, flushed: bool)
    requires ImageOf(d, s)
  {
    && ImageOf(img, s)
    && (if flushed
        then CompleteCopy(o, BackupHeader(img, s), BackupArray(img, s), Total(s) - 1, 1, s.backupLba, rows)
        else CompleteCopy(o, PrimaryHeader(img, s), PrimaryArray(img, s), 1, Total(s) - 1, s.primaryLba, s.parts))
    && Mbr(img, s) == Mbr(d, s)
    && OnlyTableChanged(s, d, img)
  }

  ghost predicate OnlyTableChanged(s: Snapshot, d: Bytes, img: Bytes)
    requires SectorOk(s.sector) && EntrySizeOk(s.entry)
  {
    && |img| == |d|
    && forall i :: 0 <= i < |d| && !BackupArraySpan(s).Covers(i) && !BackupHeaderSpan(s).Covers(i)
                   && !PrimaryArraySpan(s).Covers(i) && !PrimaryHeaderSpan(s).Covers(i)
                   ==> img[i] == d[i]
  }

  /** In particular no byte of any partition or gap changes. */
  lemma UsableUntouched(s: Snapshot, d: Bytes, img: Bytes, i: int)
    requires ImageOf(d, s) && OnlyTableChanged(s, d, img)
    requires 0 <= i < |d| && UsableSpan(s).Covers(i)
    ensures img[i] == d[i]
  {
  }

  lemma GroupsFitDisk(s: Snapshot, m: Metadata, n: Metadata)
    requires DeviceOk(s.device) && GeometryOk(s) && GroupsFit(s, m, n)
    ensures GroupFits(s.device.size, BackupGroup(s, m, n)) && GroupFits(s.device.size, PrimaryGroup(s, m, n))
  {
  }

  /** A region none of whose bytes belong to the group is quiet while the group is written. */
  lemma DuringQuiet(d: Bytes, g: Group, st: DiskState, span: Span)
    requires During(d, g, st)
    requires span.Apart(Span(g.table.offset, |g.table.replacement|))
    requires span.Apart(Span(g.header.offset, |g.header.replacement|))
    requires 0 <= span.length
    ensures Quiet(st, span)
  {
  }

  /** While the backup is being written the old primary survives every crash. */
  lemma BackupPhase(s: Snapshot, m: Metadata, n: Metadata, d: Bytes, st: DiskState, img: Bytes)
    requires ImageOf(d, s) && GroupsFit(s, m, n) && Carries(d, s, m)
    requires During(d, BackupGroup(s, m, n), st) && CrashImage(st, img)
    ensures ImageOf(img, s)
    ensures PrimaryHeader(img, s) == m.ph && PrimaryArray(img, s) == m.pa && Mbr(img, s) == m.mbr
  {
    RegionsApart(s);
    hide Scale, Reserved, SectorsIn, GeometryOk;
    var g := BackupGroup(s, m, n);
    DuringQuiet(d, g, st, PrimaryHeaderSpan(s));
    DuringQuiet(d, g, st, PrimaryArraySpan(s));
    DuringQuiet(d, g, st, MbrSpan(s));
    QuietSurvives(st, img, PrimaryHeaderSpan(s));
    QuietSurvives(st, img, PrimaryArraySpan(s));
    QuietSurvives(st, img, MbrSpan(s));
  }

  /** From the backup's flush on the new backup survives every crash. */
  lemma PrimaryPhase(s: Snapshot, m: Metadata, n: Metadata, d: Bytes, st: DiskState, img: Bytes)
    requires ImageOf(d, s) && GroupsFit(s, m, n) && Carries(d, s, m)
    requires GroupFits(|d|, BackupGroup(s, m, n))
    requires During(ApplyGroup(d, BackupGroup(s, m, n)), PrimaryGroup(s, m, n), st) && CrashImage(st, img)
    ensures ImageOf(img, s)
    ensures BackupHeader(img, s) == n.bh && BackupArray(img, s) == n.ba && Mbr(img, s) == m.mbr
  {
    RegionsApart(s);
    hide Scale, Reserved, SectorsIn, GeometryOk, ApplyGroup;
    var b, g := BackupGroup(s, m, n), PrimaryGroup(s, m, n);
    var d1 := ApplyGroup(d, b);
    ApplyGroupSets(d, b);
    ApplyGroupKeeps(d, b, MbrSpan(s));
    DuringQuiet(d1, g, st, BackupHeaderSpan(s));
    DuringQuiet(d1, g, st, BackupArraySpan(s));
    DuringQuiet(d1, g, st, MbrSpan(s));
    QuietSurvives(st, img, BackupHeaderSpan(s));
    QuietSurvives(st, img, BackupArraySpan(s));
    QuietSurvives(st, img, MbrSpan(s));
  }

  /** The finished state, with nothing unflushed, is itself. */
  lemma SettledImage(d: Bytes, img: Bytes)
    requires CrashImage(DiskState(d, []), img)
    ensures img == d
  {
  }

  predicate GroupCovers(g: Group, i: int) {
    || Span(g.table.offset, |g.table.replacement|).Covers(i)
    || Span(g.header.offset, |g.header.replacement|).Covers(i)
  }

  lemma DuringOutside(d: Bytes, g: Group, st: DiskState, img: Bytes, i: int)
    requires During(d, g, st) && CrashImage(st, img) && 0 <= i < |d| && !GroupCovers(g, i)
    ensures |img| == |d| && img[i] == d[i]
  {
  }

  lemma ApplyGroupOutside(d: Bytes, g: Group, i: int)
    requires GroupFits(|d|, g) && 0 <= i < |d| && !GroupCovers(g, i)
    ensures ApplyGroup(d, g)[i] == d[i]
  {
  }

  /** Every state of a commit that started on durable contents d with nothing unflushed; the new
      backup is flushed or not. */
  ghost predicate RunState(d: Bytes, b: Group, p: Group, st: DiskState, flushed: bool)
    requires GroupFits(|d|, b) && GroupFits(|d|, p)
  {
    if flushed
    then During(ApplyGroup(d, b), p, st) || st == DiskState(ApplyGroup(ApplyGroup(d, b), p), [])
    else During(d, b, st)
  }

  /** No crash at any state touches a byte outside the four regions. */
  lemma Footprint(s: Snapshot, m: Metadata, n: Metadata, d: Bytes, st: DiskState, img: Bytes, flushed: bool)
    requires ImageOf(d, s) && GroupsFit(s, m, n)
    requires GroupFits(|d|, BackupGroup(s, m, n)) && GroupFits(|d|, PrimaryGroup(s, m, n))
    requires RunState(d, BackupGroup(s, m, n), PrimaryGroup(s, m, n), st, flushed) && CrashImage(st, img)
    ensures OnlyTableChanged(s, d, img)
  {
    var b, g := BackupGroup(s, m, n), PrimaryGroup(s, m, n);
    hide Scale, Reserved, SectorsIn, GeometryOk, ApplyGroup, CrashImage, MayPersist;
    var d1 := ApplyGroup(d, b);
    assert |img| == |d| by {
      SameLength(st, img);
    }
    forall i | 0 <= i < |d| && !GroupCovers(b, i) && !GroupCovers(g, i) ensures img[i] == d[i] {
      ApplyGroupOutside(d, b, i);
      ApplyGroupOutside(d1, g, i);
      if During(d, b, st) {
        DuringOutside(d, b, st, img, i);
      } else if During(d1, g, st) {
        DuringOutside(d1, g, st, img, i);
      } else {
        SettledImage(ApplyGroup(d1, g), img);
      }
    }
  }

  lemma SameLength(st: DiskState, img: Bytes)
    requires CrashImage(st, img)
    ensures |img| == |st.durable|
  {
  }

  /** Crash safety of every state of a commit. */
  lemma EveryCrashRecoverable(o: Oracles, p: Proposal, guid: Guid, proof: Digest, u: Update, d: Bytes,
                              st: DiskState, img: Bytes, flushed: bool)
    requires Justified(o, p, guid, proof, u)
    requires ImageOf(d, u.before) && GroupsFit(u.before, u.captured, u.changed) && Carries(d, u.before, u.captured)
    requires GroupFits(|d|, BackupGroup(u.before, u.captured, u.changed))
    requires GroupFits(|d|, PrimaryGroup(u.before, u.captured, u.changed))
    requires RunState(d, BackupGroup(u.before, u.captured, u.changed),
                      PrimaryGroup(u.before, u.captured, u.changed), st, flushed)
    requires CrashImage(st, img)
    ensures Recoverable(o, u.before, ExpectedParts(u.before.parts, u.plan, guid), d, img, flushed)
  {
    var s, m, n := u.before, u.captured, u.changed;
    OldPrimaryComplete(o, p, guid, proof, u);
    NewBackupComplete(o, p, guid, proof, u);
    hide Justified, CompleteCopy, ExpectedParts, Scale, Reserved, SectorsIn, GeometryOk;
    Footprint(s, m, n, d, st, img, flushed);
    var b, g := BackupGroup(s, m, n), PrimaryGroup(s, m, n);
    if !flushed {
      BackupPhase(s, m, n, d, st, img);
    } else {
      if !During(ApplyGroup(d, b), g, st) {
        SettledImage(st.durable, img);
        FinishedState(s, m, n, d);
      } else {
        PrimaryPhase(s, m, n, d, st, img);
      }
    }
  }

  lemma FinishedState(s: Snapshot, m: Metadata, n: Metadata, d: Bytes)
    requires ImageOf(d, s) && GroupsFit(s, m, n) && Carries(d, s, m)
    requires GroupFits(|d|, BackupGroup(s, m, n)) && GroupFits(|d|, PrimaryGroup(s, m, n))
    ensures ImageOf(ApplyGroup(ApplyGroup(d, BackupGroup(s, m, n)), PrimaryGroup(s, m, n)), s)
    ensures Carries(ApplyGroup(ApplyGroup(d, BackupGroup(s, m, n)), PrimaryGroup(s, m, n)), s, n)
  {
    PatchedCarries(d, s, m, n);
  }
}
