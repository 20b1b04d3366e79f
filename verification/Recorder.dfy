/** The session recorder: an append-only event log, an atomically replaced summary, and a
    report.  Every system call may fail or do less than it was asked for. */
module Recorder {
  import opened Bytes
  import opened Observation

  datatype LogStatus = Recording | Complete | Unavailable | Failed | Truncated | Incomplete

  datatype LogError = StoreUnsafe | StoreFull | WriteFailed | LogLimit | SchemaInvalid | ObservationLost

  datatype Limits = Limits(eventBytes: nat, events: nat, sessionBytes: nat, summaryBytes: nat)

  /** What the operating system does to the temporary file of one save: whether it can be
      created at all, and whether closing it works. */
  datatype Fault = Fault(created: bool, closed: bool)

  /** One save: the report it is to store, and its number among the saves of the session. */
  datatype Save = Save(report: Report, number: nat)

  /** The whole report; `body` is what does not depend on logging. */
  datatype Report = Report(
    sid: string, startedAt: string, finishedAt: Option<string>, body: Body,
    logStatus: LogStatus, logError: Option<LogError>)

  datatype Event = Event(sid: string, seqno: nat, timestamp: string, role: string, value: Value)

  /** JSON lines: an encoded record ends in the only newline it contains. */
  ghost predicate LineFramed(b: Bytes) {
    b != [] && b[|b| - 1] == 10 && forall i :: 0 <= i < |b| - 1 ==> b[i] != 10
  }

  function Degrade(r: Report, code: LogError): (q: Report)
    ensures Latched(q.logStatus) && (r.logStatus.Recording? ==> q.logStatus.Failed?)
    ensures SameIdentity(r, q) && q.body == r.body
  {
    if r.logStatus.Unavailable? || r.logStatus.Failed? then r
    else r.(logStatus := LogStatus.Failed, logError := Some(code))
  }

  predicate SameIdentity(r: Report, q: Report) {
    q.sid == r.sid && q.startedAt == r.startedAt && q.finishedAt == r.finishedAt
  }

  predicate Latched(s: LogStatus) {
    s.Unavailable? || s.Failed?
  }

  /** The calls that end in a save: verdicts that are taken over, and the end. */
  predicate Saving(m: Core, c: Call, s: Schema) {
    !m.terminal && (c.Finish? || (c.Outcome? && ValidVerdict(c.verdict, s)))
  }

  ghost function EncodedLog(events: seq<Event>, encode: Event -> Bytes): Bytes {
    if events == [] then []
    else EncodedLog(events[..|events| - 1], encode) + encode(events[|events| - 1])
  }

  /** The log holds the records 1..n in order, each complete, and then at most the beginning
      of record n + 1; only a log that is closed for good may end in such a torn record. */
  ghost predicate Shaped(content: Bytes, logged: seq<Event>, torn: Event, cut: nat, sid: string,
                         status: LogStatus, encode: Event -> Bytes) {
    && (forall i :: 0 <= i < |logged| ==> logged[i].seqno == i + 1 && logged[i].sid == sid)
    && (cut > 0 ==> torn.seqno == |logged| + 1 && !status.Recording?)
    && cut <= |encode(torn)| && (cut > 0 ==> cut < |encode(torn)|)
    && content == EncodedLog(logged, encode) + encode(torn)[..cut]
  }

  lemma ShapedLength(content: Bytes, logged: seq<Event>, torn: Event, cut: nat, sid: string,
                     status: LogStatus, encode: Event -> Bytes)
    requires Shaped(content, logged, torn, cut, sid, status, encode)
    ensures |content| == |EncodedLog(logged, encode)| + cut && (status.Recording? ==> cut == 0)
    ensures forall other: LogStatus :: !other.Recording? ==> Shaped(content, logged, torn, cut, sid, other, encode)
  {
  }

  /** Adding a whole record, or only its first bytes, to a log that is still recording. */
  lemma ShapedAppend(content: Bytes, logged: seq<Event>, torn: Event, cut: nat, sid: string,
                     encode: Event -> Bytes, event: Event, put: nat)
    requires Shaped(content, logged, torn, cut, sid, Recording, encode)
    requires event.seqno == |logged| + 1 && event.sid == sid && put <= |encode(event)|
    ensures Shaped(content + encode(event), logged + [event], torn, 0, sid, Recording, encode)
    ensures EncodedLog(logged + [event], encode) == EncodedLog(logged, encode) + encode(event)
    ensures put < |encode(event)| ==>
              Shaped(content + encode(event)[..put], logged, event, put, sid, LogStatus.Failed, encode)
  {
    assert (logged + [event])[..|logged|] == logged;
    assert encode(torn)[..0] == [];
    assert content == EncodedLog(logged, encode);
  }

  /** Records are only added and bytes only appended, neither once the log has left the
      recording state, which is never re-entered. */
  ghost predicate Grew(logged: seq<Event>, content: Bytes, status: LogStatus,
                       logged': seq<Event>, content': Bytes, status': LogStatus) {
    && logged <= logged' && content <= content'
    && (!status.Recording? ==> logged' == logged && content' == content && !status'.Recording?)
    && (Latched(status) ==> status' == status)
  }

  lemma GrewSelf(logged: seq<Event>, content: Bytes, status: LogStatus, status': LogStatus)
    requires status'.Recording? ==> status.Recording?
    requires Latched(status) ==> status' == status
    ensures Grew(logged, content, status, logged, content, status')
  {
  }

  lemma GrewTwice(a: seq<Event>, a': Bytes, a'': LogStatus, b: seq<Event>, b': Bytes, b'': LogStatus,
                  c: seq<Event>, c': Bytes, c'': LogStatus)
    requires Grew(a, a', a'', b, b', b'') && Grew(b, b', b'', c, c', c'')
    ensures Grew(a, a', a'', c, c', c'')
  {
  }

  // ---- reading the log back ----

  /** The newline-terminated lines of a file, each with its newline. */
  function WholeLines(b: Bytes): seq<Bytes> {
    var n := IndexOf(b, 10);
    if n == |b| then [] else [b[..n + 1]] + WholeLines(b[n + 1..])
  }

  ghost function Records(logged: seq<Event>, encode: Event -> Bytes): seq<Bytes> {
    if logged == [] then [] else [encode(logged[0])] + Records(logged[1..], encode)
  }

  lemma {:induction false} EncodedLogFront(logged: seq<Event>, encode: Event -> Bytes)
    requires logged != []
    ensures EncodedLog(logged, encode) == encode(logged[0]) + EncodedLog(logged[1..], encode)
  {
    var front := logged[..|logged| - 1];
    if front == [] {
      assert logged[1..] == [];
    } else {
      EncodedLogFront(front, encode);
      assert front[1..] == logged[1..][..|logged| - 2];
    }
  }

  /** Splitting a log at its newlines gives back exactly the records that were written whole,
      in order, whatever was torn off at the end. */
  lemma {:induction false} LinesAreRecords(logged: seq<Event>, tail: Bytes, encode: Event -> Bytes)
    requires forall e: Event :: LineFramed(encode(e))
    requires 10 !in tail
    ensures WholeLines(EncodedLog(logged, encode) + tail) == Records(logged, encode)
  {
    var b := EncodedLog(logged, encode) + tail;
    if logged == [] {
      assert b == tail;
      assert IndexOf(b, 10) == |b|;
    } else {
      EncodedLogFront(logged, encode);
      var first := encode(logged[0]);
      assert LineFramed(first);
      var rest := EncodedLog(logged[1..], encode) + tail;
      assert b == first + rest;
      assert b[|first| - 1] == 10 && forall i :: 0 <= i < |first| - 1 ==> b[i] == first[i];
      assert IndexOf(b, 10) == |first| - 1;
      assert b[..|first|] == first && b[|first|..] == rest;
      LinesAreRecords(logged[1..], tail, encode);
    }
  }

  lemma LogReadsBack(content: Bytes, logged: seq<Event>, torn: Event, cut: nat, sid: string,
                     status: LogStatus, encode: Event -> Bytes)
    requires Shaped(content, logged, torn, cut, sid, status, encode)
    requires forall e: Event :: LineFramed(encode(e))
    ensures WholeLines(content) == Records(logged, encode)
    ensures status.Recording? ==> content == EncodedLog(logged, encode)
  {
    assert LineFramed(encode(torn));
    assert 10 !in encode(torn)[..cut];
    LinesAreRecords(logged, encode(torn)[..cut], encode);
  }

  /** A regular file opened for appending. */
  class File {
    ghost var content: Bytes

    constructor ()
      ensures content == []
    {
      content := [];
    }

    /** `os.write`: it raises, or reports how much of the data it took. */
    method Write(data: Bytes) returns (written: Option<int>)
      modifies this
      ensures written.None? ==> content == old(content)
      ensures written.Some? ==> 0 <= written.value <= |data| && content == old(content) + data[..written.value]
    {
      if * {
        return None;
      }
      var n: int :| 0 <= n <= |data|;
      content := content + data[..n];
      written := Some(n);
    }

    /** Writes until nothing is left; a write of nothing counts as an error. */
    method WriteAll(data: Bytes) returns (ok: bool, ghost put: nat)
      modifies this
      ensures put <= |data| && (ok <==> put == |data|)
      ensures content == old(content) + data[..put]
    {
      var rest := data;
      put := 0;
      while rest != []
        invariant put <= |data| && rest == data[put..]
        invariant content == old(content) + data[..put]
        decreases |rest|
      {
        var written := Write(rest);
        if written.None? || written.value <= 0 {
          return false, put;
        }
        assert rest[..written.value] == data[put..put + written.value];
        assert data[..put] + data[put..put + written.value] == data[..put + written.value];
        rest := rest[written.value..];
        put := put + written.value;
      }
      ok := true;
    }
  }

  class Recorder {
    const schema: Schema
    const limits: Limits
    const clock: nat -> int
    const started: int
    const encodeEvent: Event -> Bytes
    const encodeReport: Report -> Bytes
    const log: File
    const saves: nat -> Fault

    var report: Report
    var stack: seq<string>
    var starts: map<Key, int>
    var stage: Option<int>
    var operation: string
    var ticks: nat
    var terminal: bool
    var events: nat
    var bytes: nat
    var logOpen: bool
    var directoryOpen: bool
    /** How many saves got past the first test of `Checkpoint`; it indexes `saves` as `ticks`
        indexes `clock`. */
    var attempts: nat

    /** The records in the log, the one that may be torn, and how much of it is there. */
    ghost var logged: seq<Event>
    ghost var torn: Event
    ghost var cut: nat
    ghost var summary: Option<Bytes>
    ghost var stale: Bytes
    /** The most bytes the session's directory ever held. */
    ghost var peak: nat
    ghost function Core(): Core
      reads this`report, this`stack, this`starts, this`stage, this`operation, this`ticks, this`terminal
    {
      Observation.Core(report.body, stack, starts, stage, operation, ticks, terminal)
    }

    ghost function SummaryBytes(): Bytes
      reads this`summary
    {
      if summary.Some? then summary.value else []
    }

    ghost predicate LogShape()
      reads this`report, this`events, this`bytes, this`logged, this`torn, this`cut, log
    {
      && events == |logged| && events <= limits.events
      && bytes == |EncodedLog(logged, encodeEvent)|
      && Shaped(log.content, logged, torn, cut, report.sid, report.logStatus, encodeEvent)
      && |log.content| <= limits.sessionBytes
    }

    ghost predicate Sizes()
      reads this`report, this`summary, this`stale, this`peak, log
    {
      && |SummaryBytes()| <= limits.summaryBytes
      && |stale| <= limits.summaryBytes
      && (stale != [] ==> Latched(report.logStatus))
      && |log.content| + |SummaryBytes()| + |stale| <= peak
      && peak <= limits.sessionBytes + 2 * limits.summaryBytes
    }

    ghost predicate Valid()
      reads this, log
    {
      && CoreOk(Core())
      && LogShape()
      && Sizes()
    }

    /** The one way in which a save raises: it gets as far as the temporary file, and closing
        that file fails. */
    ghost predicate Raises(r: Report, number: nat)
      reads this`directoryOpen
    {
      && directoryOpen && !Latched(r.logStatus) && |encodeReport(r)| <= limits.summaryBytes
      && saves(number).created && !saves(number).closed
    }

    ghost predicate Escapes(saved: Option<Save>)
      reads this`directoryOpen
    {
      saved.Some? && Raises(saved.value.report, saved.value.number)
    }

    /** The report is what was to be saved, or that with the log marked as failed; and the save
        was the last one. */
    ghost predicate Tried(saved: Save)
      reads this
    {
      && (report == saved.report || report == Degrade(saved.report, WriteFailed))
      && attempts == saved.number + (if directoryOpen && !Latched(saved.report.logStatus) then 1 else 0)
    }

    method Monotonic() returns (t: int)
      modifies this`ticks
      ensures ticks == old(ticks) + 1 && t == clock(old(ticks))
    {
      t := clock(ticks);
      ticks := ticks + 1;
    }

    method Now() returns (t: string)
    {
      t := *;
    }

    method Elapsed() returns (ms: int)
      modifies this`ticks
      ensures ticks == old(ticks) + 1 && ms == Clamp(clock(old(ticks)) - started)
    {
      var t := Monotonic();
      ms := Clamp(t - started);
    }

    method Failure(code: LogError)
      modifies this`report
      ensures report == Degrade(old(report), code)
    {
      if !(report.logStatus.Unavailable? || report.logStatus.Failed?) {
        report := report.(logStatus := LogStatus.Failed, logError := Some(code));
      }
    }

    /** Creates the session.  `refusal` is how the store turns it away, if it does. */
    constructor (schema: Schema, limits: Limits, clock: nat -> int, startedNs: Option<int>,
                 encodeEvent: Event -> Bytes, encodeReport: Report -> Bytes, saves: nat -> Fault,
                 sid: string, now: string, refusal: Option<LogError>)
      requires refusal.Some? ==> refusal.value.StoreFull? || refusal.value.StoreUnsafe?
      ensures Valid() && fresh(log)
      ensures this.schema == schema && this.limits == limits && this.clock == clock && this.saves == saves
      ensures this.encodeEvent == encodeEvent && this.encodeReport == encodeReport
      ensures started == if startedNs.Some? then startedNs.value else clock(0)
      ensures Core() == InitialCore(if startedNs.Some? then 0 else 1)
      ensures log.content == []
      ensures Admitted(refusal, Report(sid, now, None, InitialBody(), Recording, None))
    {
      this.schema, this.limits, this.clock, this.saves := schema, limits, clock, saves;
      this.encodeEvent, this.encodeReport := encodeEvent, encodeReport;
      started := if startedNs.Some? then startedNs.value else clock(0);
      ticks := if startedNs.Some? then 0 else 1;
      stack, starts, stage, operation, terminal := [], map[], None, "unclassified", false;
      events, bytes, logOpen, directoryOpen := 0, 0, false, false;
      report := Report(sid, now, None, InitialBody(), Recording, None);
      log := new File();
      logged, cut, summary, stale, peak, attempts := [], 0, None, [], 0, 0;
      new;
      assert EncodedLog(logged, encodeEvent) == [];
      assert encodeEvent(torn)[..0] == [];
      Admit(refusal);
    }

    /** A session that the store turned away is unavailable for the reason given.  One that it
        took has its log and directory open, and is unavailable exactly if its first save
        raised; otherwise it records with its summary stored, or is marked as failed. */
    ghost predicate Admitted(refusal: Option<LogError>, first: Report)
      reads this
    {
      if refusal.Some? then report == first.(logStatus := Unavailable, logError := refusal)
      else
        && directoryOpen && logOpen && attempts == 1
        && (report.logStatus.Unavailable? <==> Raises(first, 0))
        && if report.logStatus.Unavailable? then
             && report.logError in {Some(StoreFull), Some(StoreUnsafe)}
             && report == first.(logStatus := Unavailable, logError := report.logError)
           else
             || (report == first && summary == Some(encodeReport(first)))
             || report == Degrade(first, WriteFailed)
    }

    /** The recorder is unavailable from now on. */
    method GiveUp(code: LogError)
      requires Valid() && (report.logStatus.Recording? || Latched(report.logStatus))
      modifies this`report
      ensures Valid() && Core() == old(Core())
      ensures report == old(report).(logStatus := Unavailable, logError := Some(code))
    {
      hide Shaped, EncodedLog, CoreOk;
      ShapedLength(log.content, logged, torn, cut, report.sid, report.logStatus, encodeEvent);
      report := report.(logStatus := Unavailable, logError := Some(code));
    }

    /** What the constructor does once the fields are set: the store takes the session and
        the first summary is written, or the recorder is unavailable. */
    method Admit(refusal: Option<LogError>)
      requires Valid() && report.logStatus.Recording? && !logOpen && !directoryOpen && attempts == 0
      requires refusal.Some? ==> refusal.value.StoreFull? || refusal.value.StoreUnsafe?
      modifies this`report, this`logOpen, this`directoryOpen, this`summary, this`stale, this`peak, this`attempts
      ensures Valid() && Core() == old(Core())
      ensures Admitted(refusal, old(report))
    {
      hide Shaped, EncodedLog, CoreOk, Core, LogShape, Sizes;
      if refusal.Some? {
        directoryOpen, logOpen := *, *;
        GiveUp(refusal.value);
      } else {
        directoryOpen, logOpen := true, true;
        var ok, raised := Checkpoint();
        if raised {
          var full := *;
          GiveUp(if full then StoreFull else StoreUnsafe);
        }
      }
    }

    /** Replaces the summary by the current report: a temporary file is written, synced and
        renamed, so the summary is always the old one or the whole new one. */
    method Checkpoint() returns (ok: bool, raised: bool)
      requires Valid()
      modifies this`report, this`summary, this`stale, this`peak, this`attempts
      ensures Valid() && Core() == old(Core())
      ensures Tried(Save(old(report), old(attempts)))
      ensures summary == old(summary) || summary == Some(encodeReport(old(report)))
      ensures ok ==> summary == Some(encodeReport(old(report)))
      ensures raised <==> Raises(old(report), old(attempts))
      ensures !raised && directoryOpen && !Latched(report.logStatus) ==> ok && report == old(report)
      ensures !ok && !raised ==> !directoryOpen || Latched(report.logStatus)
    {
      ok, raised := false, false;
      hide Shaped, EncodedLog, CoreOk, Degrade;
      ShapedLength(log.content, logged, torn, cut, report.sid, report.logStatus, encodeEvent);
      if !directoryOpen || Latched(report.logStatus) {
        return;
      }
      var raw := encodeReport(report);
      var fault := saves(attempts);
      attempts := attempts + 1;
      var failed := true;
      if |raw| <= limits.summaryBytes && fault.created {
        ok, failed, raised := Replace(raw, fault.closed);
      }
      if failed {
        Failure(WriteFailed);
      }
    }

    /** The steps from the temporary file on.  `failed` is what marks the log as failed: an
        error before the rename, or an error in removing the temporary file. */
    method Replace(raw: Bytes, closed: bool) returns (ok: bool, failed: bool, raised: bool)
      requires Sizes() && |log.content| <= limits.sessionBytes
      requires |raw| <= limits.summaryBytes && !Latched(report.logStatus)
      modifies this`summary, this`stale, this`peak
      ensures summary == (if ok || (raised && !failed) then Some(raw) else old(summary))
      ensures ok ==> !raised
      ensures !ok ==> failed || raised
      ensures raised <==> !closed
      ensures |SummaryBytes()| <= limits.summaryBytes && |stale| <= limits.summaryBytes
      ensures stale != [] ==> failed
      ensures |log.content| + |SummaryBytes()| + |stale| <= peak <= limits.sessionBytes + 2 * limits.summaryBytes
    {
      var temp := new File();
      var written, put := temp.WriteAll(raw);
      var now := |log.content| + |SummaryBytes()| + |temp.content|;
      peak := if peak < now then now else peak;
      var synced := *;
      var renamed := *;
      ok := written && synced && renamed;
      failed := !ok;
      if ok {
        assert raw[..put] == raw;
        summary := Some(raw);
      } else {
        stale := temp.content;
      }
      raised := !closed;
      if raised {
        ok := false;
        return;
      }
      var unlinked := *;
      var missing := *;
      if unlinked {
        stale := [];
      } else if !(ok && missing) {
        failed := true;
      }
    }

    method TrackSpan(v: Value)
      requires v.Payload?
      modifies this`stack, this`operation
      ensures stack == Stacked(old(stack), v)
      ensures operation == OperationAfter(old(operation), stack, v)
    {
      if v.kind.OfSpan() {
        if v.kind.SpanStart? {
          stack := stack + [v.operationId];
        } else if stack != [] && stack[|stack| - 1] == v.operationId {
          stack := stack[..|stack| - 1];
        }
        operation := if stack != [] then stack[|stack| - 1] else "stage.command";
      }
    }

    method TrackExit(v: Value)
      requires v.Payload?
      modifies this`report
      ensures report == old(report).(body := Exited(old(report.body), v))
    {
      if v.kind.CommandEnd? && v.exitCode.Some? && v.exitCode.value != 0 {
        report := report.(body := report.body.(
                            lastFailedOperation := Some(v.operationId), lastExitCode := v.exitCode));
      }
    }

    method TrackItem(v: Value)
      requires v.Payload? && |report.body.spans| == 6
      modifies this`report
      ensures report == old(report).(body := Spanned(old(report.body), v))
    {
      if v.kind.OfSpan() && SpanIndex(v.operationId).Some? {
        var k := SpanIndex(v.operationId).value;
        report := report.(body := report.body.(spans := report.body.spans[k := Item(v.status, v.durationMs)]));
      }
    }

    method TrackStart(v: Value)
      requires v.Payload?
      modifies this`starts, this`ticks
      ensures starts == Started(old(starts), v, clock(old(ticks)))
      ensures ticks == if v.kind.StageStart? || v.kind.SpanStart? then old(ticks) + 1 else old(ticks)
    {
      if v.kind.StageStart? || v.kind.SpanStart? {
        var t := Monotonic();
        starts := starts[KeyOf(v) := t];
      } else if v.kind.IsEnd() {
        starts := starts - {KeyOf(v)};
      }
    }

    method TrackStage(v: Value)
      requires v.Payload? && Within(v.stageId, 1, 9) && |report.body.stages| == 9
      modifies this`report, this`stage
      ensures report == old(report).(body := Staged(old(report.body), v))
      ensures stage == StageAfter(old(stage), v)
    {
      if v.kind.OfStage() && v.stageId.Some? {
        var n := v.stageId.value;
        report := report.(body := report.body.(
                            stages := report.body.stages[n - 1 := Item(v.status, v.durationMs)]));
        if v.kind.StageEnd? {
          if v.status.Success? {
            report := report.(body := report.body.(lastSuccessfulStage := n));
          } else if (v.status.Failed? || v.status.Interrupted?) && report.body.failedStage.None? {
            report := report.(body := report.body.(failedStage := Some(n)));
          }
        }
        stage := if v.kind.StageStart? then v.stageId else None;
      }
    }

    /** Log and sizes do not depend on the report's body. */
    twostate lemma BodyAlone()
      requires old(LogShape() && Sizes()) && report == old(report).(body := report.body)
      requires unchanged(`events, `bytes, `logged, `torn, `cut, `summary, `stale, `peak, log)
      ensures LogShape() && Sizes()
    {
    }

    /** The in-memory half of `observe`, for an event that is let in. */
    method Track(v: Value)
      requires Valid() && Accepted(Core(), v, schema)
      modifies this`report, this`stack, this`starts, this`stage, this`operation, this`ticks
      ensures Valid()
      ensures Core() == ObserveCore(old(Core()), v, clock, schema)
      ensures report == old(report).(body := report.body)
    {
      hide Stacked, OperationAfter, Started, Staged, StageAfter, Exited, Spanned, KeyOf, LogShape, Sizes;
      ghost var before := Core();
      TrackSpan(v);
      TrackExit(v);
      ExitedKeeps(before.body, v);
      TrackStart(v);
      TrackStage(v);
      StagedKeeps(report.body, Exited(before.body, v), v);
      TrackItem(v);
      assert report.body == Spanned(Staged(Exited(before.body, v), v), v);
      BodyAlone();
    }

    /** The logging half of `observe`: one record, whole, or the log is closed for good. */
    method Append(v: Value, role: string) returns (ok: bool)
      requires Valid() && v.Payload?
      modifies this`report, this`events, this`bytes, this`logged, this`torn, this`cut,
               this`summary, this`stale, this`peak, this`attempts, log
      ensures Valid() && Core() == old(Core())
      ensures Progressed()
      ensures ok ==> |logged| == |old(logged)| + 1 && Newest(logged).value == v && Newest(logged).role == role
      ensures !ok && logOpen ==> !report.logStatus.Recording?
      ensures report.(logStatus := old(report.logStatus), logError := old(report.logError)) == old(report)
    {
      hide Shaped, EncodedLog;
      ShapedLength(log.content, logged, torn, cut, report.sid, report.logStatus, encodeEvent);
      var now := Now();
      var event := Event(report.sid, events + 1, now, role, v);
      var raw := encodeEvent(event);
      if |raw| > limits.eventBytes || events >= limits.events || bytes + |raw| > limits.sessionBytes {
        if report.logStatus.Recording? {
          report := report.(logStatus := Truncated, logError := Some(LogLimit));
        }
        return false;
      }
      if !report.logStatus.Recording? || !logOpen {
        return false;
      }
      ok := WriteRecord(event);
      if ok && (v.kind.StageEnd? || v.kind.EngineEnd? || v.kind.SessionEnd?) {
        var saved, raised := Checkpoint();
        if raised {
          ShapedLength(log.content, logged, torn, cut, report.sid, report.logStatus, encodeEvent);
          Failure(WriteFailed);
          ok := false;
        }
      }
    }

    method WriteRecord(event: Event) returns (ok: bool)
      requires Valid() && report.logStatus.Recording?
      requires event.seqno == events + 1 && event.sid == report.sid
      requires events < limits.events && bytes + |encodeEvent(event)| <= limits.sessionBytes
      modifies this`report, this`events, this`bytes, this`logged, this`torn, this`cut, this`peak, log
      ensures Valid() && Core() == old(Core())
      ensures ok ==> report == old(report) && logged == old(logged) + [event]
                     && log.content == old(log.content) + encodeEvent(event)
      ensures !ok ==> report == Degrade(old(report), WriteFailed) && logged == old(logged)
                      && old(log.content) <= log.content
    {
      hide Shaped, EncodedLog, CoreOk, Core, Degrade, Sizes;
      var raw := encodeEvent(event);
      ShapedLength(log.content, logged, torn, cut, report.sid, report.logStatus, encodeEvent);
      ghost var put;
      ok, put := WriteRaw(raw);
      assert raw[..|raw|] == raw;
      ShapedAppend(old(log.content), logged, torn, cut, report.sid, encodeEvent, event, put);
      if ok {
        logged := logged + [event];
        cut := 0;
        events := events + 1;
        bytes := bytes + |raw|;
      } else {
        Tear(event, put);
      }
    }

    /** After a record of which only the first bytes were written. */
    method Tear(event: Event, ghost put: nat)
      requires CoreOk(Core()) && Sizes() && report.logStatus.Recording?
      requires events == |logged| <= limits.events && bytes == |EncodedLog(logged, encodeEvent)|
      requires Shaped(log.content, logged, event, put, report.sid, LogStatus.Failed, encodeEvent)
      requires |log.content| <= limits.sessionBytes
      modifies this`report, this`torn, this`cut
      ensures Valid() && Core() == old(Core()) && report == Degrade(old(report), WriteFailed)
    {
      hide Shaped, EncodedLog;
      torn, cut := event, put;
      Failure(WriteFailed);
    }

    method WriteRaw(raw: Bytes) returns (ok: bool, ghost put: nat)
      requires Sizes() && |log.content| + |raw| <= limits.sessionBytes
      modifies this`peak, log
      ensures Sizes()
      ensures put <= |raw| && (ok <==> put == |raw|)
      ensures log.content == old(log.content) + raw[..put]
    {
      ok, put := log.WriteAll(raw);
      var now := |log.content| + |SummaryBytes()| + |stale|;
      peak := if peak < now then now else peak;
    }

    /** What every call keeps: records are only added, the bytes of the log only grow, and
        neither happens once the log has left the recording state, which is never re-entered. */
    twostate predicate Progressed()
      reads this, log
    {
      Grew(old(logged), old(log.content), old(report.logStatus), logged, log.content, report.logStatus)
    }

    method Observe(v: Value, role: string) returns (ok: bool)
      requires Valid()
      modifies this`report, this`stack, this`starts, this`stage, this`operation, this`ticks,
               this`events, this`bytes, this`logged, this`torn, this`cut,
               this`summary, this`stale, this`peak, this`attempts, log
      ensures Valid()
      ensures Core() == ObserveCore(old(Core()), v, clock, schema)
      ensures Progressed()
      ensures ok ==> |logged| == |old(logged)| + 1 && Newest(logged).value == v && Newest(logged).role == role
      ensures old(terminal) ==>
                report == if ValidPayload(v, schema) then old(report) else Degrade(old(report), SchemaInvalid)
      ensures !ok && logOpen && !old(terminal) ==> !report.logStatus.Recording?
      ensures SameIdentity(old(report), report)
    {
      hide Within, ErrorOk, Shaped, EncodedLog, Grew, ObserveCore;
      ShapedLength(log.content, logged, torn, cut, report.sid, report.logStatus, encodeEvent);
      GrewSelf(logged, log.content, report.logStatus, Degrade(report, SchemaInvalid).logStatus);
      GrewSelf(logged, log.content, report.logStatus, report.logStatus);
      if !ValidPayload(v, schema) {
        Refused(Core(), v, clock, schema);
        Failure(SchemaInvalid);
        return false;
      }
      if terminal {
        Refused(Core(), v, clock, schema);
        return false;
      }
      if v.kind.SpanStart? && |stack| >= 16 {
        Refused(Core(), v, clock, schema);
        Failure(SchemaInvalid);
        return false;
      }
      Track(v);
      ok := Append(v, role);
    }

    /** `outcome`: takes the verdict over and saves the summary. */
    method Outcome(v: Verdict) returns (ok: bool, raised: bool, ghost saved: Option<Save>)
      requires Valid()
      modifies this`report, this`summary, this`stale, this`peak, this`attempts
      ensures Valid()
      ensures Core() == OutcomeCore(old(Core()), v, schema)
      ensures Progressed()
      ensures ok ==> summary == Some(encodeReport(old(report).(body := report.body)))
      ensures old(terminal) || !ValidVerdict(v, schema) ==> report == Degrade(old(report), SchemaInvalid)
      ensures saved == if old(terminal) || !ValidVerdict(v, schema) then None
                       else Some(Save(old(report).(body := report.body), old(attempts)))
      ensures saved.Some? ==> Tried(saved.value)
      ensures raised <==> Escapes(saved)
      ensures SameIdentity(old(report), report)
    {
      hide Within, ErrorOk, Shaped, EncodedLog, Grew;
      ShapedLength(log.content, logged, torn, cut, report.sid, report.logStatus, encodeEvent);
      GrewSelf(logged, log.content, report.logStatus, Degrade(report, SchemaInvalid).logStatus);
      GrewSelf(logged, log.content, report.logStatus, report.logStatus);
      raised := false;
      if !ValidVerdict(v, schema) || terminal {
        Failure(SchemaInvalid);
        return false, false, None;
      }
      report := report.(body := report.body.(
                          terminalStatus := v.terminalStatus, failedStage := v.failedStage,
                          lastSuccessfulStage := v.lastSuccessfulStage, primaryError := v.primaryError,
                          cleanupStatus := v.cleanupStatus, remainingResources := v.remainingResources,
                          engineDurationMs := v.engineDurationMs));
      saved := Some(Save(report, attempts));
      ok, raised := Checkpoint();
    }

    method Judge(status: int, error: Option<string>, remaining: Option<int>)
      modifies this`report
      ensures report.body == Concluded(old(report.body), status, error, remaining)
      ensures SameIdentity(old(report), report)
      ensures report.logStatus == old(report.logStatus)
              || (old(report.logStatus).Recording? && report.logStatus == LogStatus.Incomplete
                  && status == 0 && old(report.body.terminalStatus).Pending?)
    {
      report := report.(body := report.body.(sessionError := error, remainingSessionResources := remaining));
      if report.body.terminalStatus.Pending? {
        if status == 0 {
          report := report.(body := report.body.(
                              terminalStatus := Unclear, primaryError := None, cleanupStatus := Unsure,
                              sessionError := Some("OBSERVATION_INCOMPLETE")));
          if report.logStatus.Recording? {
            report := report.(logStatus := LogStatus.Incomplete, logError := Some(ObservationLost));
          }
        } else {
          var alone := error == Some("NAMESPACE_FAILED");
          report := report.(body := report.body.(
                              terminalStatus := if alone then Broken else Terminal.Incomplete,
                              primaryError := Or(error, "ENGINE_CRASH"),
                              cleanupStatus := if alone then NotRun else Unsure,
                              remainingResources := if alone then Some(0) else None));
        }
      } else if status != 0 && report.body.terminalStatus.Succeeded? {
        report := report.(body := report.body.(
                            terminalStatus := Broken,
                            primaryError := Or(error, "SESSION_FINALIZATION_FAILED"),
                            sessionError := Or(error, "SESSION_FINALIZATION_FAILED")));
      }
    }

    /** The first half of `finish`: the verdict on the session as a whole. */
    method Conclude(status: int, error: Option<string>, remaining: Option<int>)
      requires Valid()
      modifies this`report
      ensures Valid() && Progressed()
      ensures Core() == old(Core()).(body := Concluded(old(report.body), status, error, remaining))
      ensures report.sid == old(report.sid) && report.startedAt == old(report.startedAt)
      ensures report.finishedAt.Some?
    {
      hide Shaped, EncodedLog, Grew, Concluded;
      ShapedLength(log.content, logged, torn, cut, report.sid, report.logStatus, encodeEvent);
      var now := Now();
      report := report.(finishedAt := Some(now));
      Judge(status, error, remaining);
      GrewSelf(logged, log.content, old(report.logStatus), report.logStatus);
    }

    /** Ends a stage or span that is still running. */
    method Interrupt(k: nat, error: Option<string>)
      requires Valid() && k < 15
      modifies this`report, this`stack, this`starts, this`stage, this`operation, this`ticks,
               this`events, this`bytes, this`logged, this`torn, this`cut,
               this`summary, this`stale, this`peak, this`attempts, log
      ensures Valid() && Progressed()
      ensures Core() == InterruptItem(old(Core()), k, error, clock, schema)
      ensures SameIdentity(old(report), report)
    {
      hide Shaped, EncodedLog, Grew, ObserveCore, InterruptPayload;
      GrewSelf(logged, log.content, report.logStatus, report.logStatus);
      if ItemAt(report.body, k).status.Running? {
        var late := Monotonic();
        var start := if ItemKey(k) in starts then starts[ItemKey(k)] else late;
        var now := Monotonic();
        var ok := Observe(InterruptPayload(k, Clamp(now - start), error), "supervisor");
      }
    }

    /** The final log status and the final summary. */
    method Seal() returns (raised: bool, ghost saved: Save)
      requires Valid()
      modifies this`report, this`summary, this`stale, this`peak, this`attempts
      ensures Valid() && Progressed() && Core() == old(Core())
      ensures !report.logStatus.Recording?
      ensures !raised && directoryOpen && !Latched(report.logStatus) ==> summary == Some(encodeReport(report))
      ensures saved.number == old(attempts) && saved.report.body == report.body && Tried(saved)
      ensures raised <==> Escapes(Some(saved))
    {
      hide Shaped, EncodedLog, Grew;
      ShapedLength(log.content, logged, torn, cut, report.sid, report.logStatus, encodeEvent);
      if report.logStatus.Recording? {
        report := report.(logStatus := Complete);
      }
      saved := Save(report, attempts);
      var ok;
      ok, raised := Checkpoint();
      GrewSelf(logged, log.content, old(report.logStatus), report.logStatus);
    }

    method StampDuration() returns (duration: int)
      requires Valid()
      modifies this`report, this`ticks
      ensures Valid() && Progressed()
      ensures duration == Clamp(clock(old(ticks) + 1) - started)
      ensures var m := old(Core());
              Core() == m.(body := m.body.(supervisorDurationMs := Some(Clamp(clock(m.ticks) - started))),
                           ticks := m.ticks + 2)
    {
      hide Shaped, EncodedLog, Grew, Clamp;
      duration := Elapsed();
      report := report.(body := report.body.(supervisorDurationMs := Some(duration)));
      duration := Elapsed();
      GrewSelf(logged, log.content, report.logStatus, report.logStatus);
    }

    /** The last record of the session. */
    method EndSession(status: int, error: Option<string>)
      requires Valid()
      modifies this`report, this`stack, this`starts, this`stage, this`operation, this`ticks,
               this`events, this`bytes, this`logged, this`torn, this`cut,
               this`summary, this`stale, this`peak, this`attempts, log
      ensures Valid() && Progressed()
      ensures Core() == EndedCore(old(Core()), status, error, started, clock, schema)
    {
      hide Shaped, EncodedLog, ObserveCore, SessionEndPayload, LogShape, Sizes, CoreOk, Clamp;
      var duration := StampDuration();
      var ok := Observe(SessionEndPayload(status, error, duration), "supervisor");
    }

    method InterruptAll(error: Option<string>)
      requires Valid()
      modifies this`report, this`stack, this`starts, this`stage, this`operation, this`ticks,
               this`events, this`bytes, this`logged, this`torn, this`cut,
               this`summary, this`stale, this`peak, this`attempts, log
      ensures Valid() && Progressed()
      ensures Core() == InterruptUpTo(old(Core()), 15, error, clock, schema)
    {
      hide Shaped, EncodedLog, Grew, InterruptItem, LogShape, Sizes, Core;
      ghost var l0, c0, s0 := logged, log.content, report.logStatus;
      ghost var m0 := Core();
      GrewSelf(l0, c0, s0, s0);
      for k := 0 to 15
        invariant Valid() && Core() == InterruptUpTo(m0, k, error, clock, schema)
        invariant Grew(l0, c0, s0, logged, log.content, report.logStatus)
      {
        ghost var l1, c1, s1 := logged, log.content, report.logStatus;
        Interrupt(k, error);
        GrewTwice(l0, c0, s0, l1, c1, s1, logged, log.content, report.logStatus);
      }
    }

    /** `finish`: concludes, interrupts what still runs, logs the end of the session and
        saves the final summary. */
    method Finish(status: int, error: Option<string>, remaining: Option<int>)
      returns (result: Report, raised: bool, ghost saved: Option<Save>)
      requires Valid()
      modifies this`report, this`stack, this`starts, this`stage, this`operation, this`ticks, this`terminal,
               this`events, this`bytes, this`logged, this`torn, this`cut,
               this`summary, this`stale, this`peak, this`attempts, log
      ensures Valid() && Progressed()
      ensures Core() == (if old(terminal) then old(Core())
                         else FinishingCore(old(Core()), status, error, remaining, started, clock, schema)
                              .(terminal := !raised))
      ensures result == report
      ensures old(terminal) ==> report == old(report)
      ensures saved.Some? <==> !old(terminal)
      ensures saved.Some? ==> Tried(saved.value) && saved.value.report.body == report.body
      ensures raised <==> Escapes(saved)
      ensures !raised && !old(terminal) && directoryOpen && !Latched(result.logStatus) ==>
                summary == Some(encodeReport(result))
      ensures !old(terminal) ==> !result.logStatus.Recording?
    {
      hide Shaped, EncodedLog, Grew, ObserveCore, InterruptUpTo, Concluded, EndedCore;
      GrewSelf(logged, log.content, report.logStatus, report.logStatus);
      if terminal {
        return report, false, None;
      }
      ghost var m0 := Core();
      ghost var last;
      raised, last := FinishSteps(status, error, remaining);
      saved := Some(last);
      assert Core() == FinishingCore(m0, status, error, remaining, started, clock, schema);
      result := report;
      if !raised {
        terminal := true;
      }
    }

    method FinishSteps(status: int, error: Option<string>, remaining: Option<int>)
      returns (raised: bool, ghost saved: Save)
      requires Valid()
      modifies this`report, this`stack, this`starts, this`stage, this`operation, this`ticks,
               this`events, this`bytes, this`logged, this`torn, this`cut,
               this`summary, this`stale, this`peak, this`attempts, log
      ensures Valid() && Progressed()
      ensures Core() == FinishingCore(old(Core()), status, error, remaining, started, clock, schema)
      ensures !raised && directoryOpen && !Latched(report.logStatus) ==> summary == Some(encodeReport(report))
      ensures !report.logStatus.Recording?
      ensures Tried(saved) && saved.report.body == report.body
      ensures raised <==> Escapes(Some(saved))
    {
      hide Shaped, EncodedLog, Grew, ObserveCore, InterruptUpTo, Concluded, EndedCore, LogShape, Sizes;
      ghost var l0, c0, s0 := logged, log.content, report.logStatus;
      Conclude(status, error, remaining);
      ghost var l1, c1, s1 := logged, log.content, report.logStatus;
      InterruptAll(error);
      GrewTwice(l0, c0, s0, l1, c1, s1, logged, log.content, report.logStatus);
      l1, c1, s1 := logged, log.content, report.logStatus;
      EndSession(status, error);
      GrewTwice(l0, c0, s0, l1, c1, s1, logged, log.content, report.logStatus);
      l1, c1, s1 := logged, log.content, report.logStatus;
      raised, saved := Seal();
      GrewTwice(l0, c0, s0, l1, c1, s1, logged, log.content, report.logStatus);
    }

    /** One call of the supervisor; `raised` is the exception of a failing `close` that
        `outcome` and `finish` let through. */
    method Perform(c: Call) returns (raised: bool, ghost saved: Option<Save>)
      requires Valid()
      modifies this`report, this`stack, this`starts, this`stage, this`operation, this`ticks, this`terminal,
               this`events, this`bytes, this`logged, this`torn, this`cut,
               this`summary, this`stale, this`peak, this`attempts, log
      ensures Valid() && Progressed()
      ensures !raised ==> Core() == StepCore(old(Core()), c, started, clock, schema)
      ensures Core().body == StepCore(old(Core()), c, started, clock, schema).body
      ensures saved.Some? <==> Saving(old(Core()), c, schema)
      ensures saved.Some? ==> Tried(saved.value) && saved.value.report.body == Core().body
      ensures raised <==> Escapes(saved)
    {
      hide Shaped, EncodedLog, Grew, ObserveCore, OutcomeCore, FinishingCore, LogShape, Sizes, ValidVerdict, Tried,
           Raises;
      raised, saved := false, None;
      match c {
        case Observe(v, role) =>
          var ok := Observe(v, role);
        case Outcome(v) =>
          var ok;
          ok, raised, saved := Outcome(v);
        case Finish(status, error, remaining) =>
          var result;
          result, raised, saved := Finish(status, error, remaining);
      }
    }

    /** Call i saves exactly if the reference function lets it, and then what it makes of the
        report's body. */
    ghost predicate SavedAt(m: Core, calls: seq<Call>, i: nat, saved: Option<Save>)
      requires CoreOk(m) && i < |calls|
    {
      && (saved.Some? <==> Saving(RunCore(m, calls[..i], started, clock, schema), calls[i], schema))
      && (saved.Some? ==> saved.value.report.body == RunCore(m, calls[..i + 1], started, clock, schema).body)
    }

    ghost predicate Attempted(m: Core, calls: seq<Call>, tried: seq<Option<Save>>)
      requires CoreOk(m)
    {
      |tried| <= |calls| && forall i :: 0 <= i < |tried| ==> SavedAt(m, calls, i, tried[i])
    }

    lemma NoneAttempted(m: Core, calls: seq<Call>)
      requires CoreOk(m)
      ensures Attempted(m, calls, [])
    {
    }

    lemma AttemptedMore(m: Core, calls: seq<Call>, tried: seq<Option<Save>>, saved: Option<Save>)
      requires CoreOk(m) && Attempted(m, calls, tried) && |tried| < |calls|
      requires SavedAt(m, calls, |tried|, saved)
      ensures Attempted(m, calls, tried + [saved])
    {
      hide SavedAt, CoreOk;
    }

    ghost predicate ClosesWork() {
      forall n :: saves(n).closed
    }

    lemma NoEscape(saved: Option<Save>)
      requires ClosesWork()
      ensures !Escapes(saved)
    {
    }

    /** A whole session, up to the call that raises if one does: the calls before it saved
        without raising. */
    method Run(calls: seq<Call>) returns (done: nat, raised: bool, ghost tried: seq<Option<Save>>)
      requires Valid()
      modifies this`report, this`stack, this`starts, this`stage, this`operation, this`ticks, this`terminal,
               this`events, this`bytes, this`logged, this`torn, this`cut,
               this`summary, this`stale, this`peak, this`attempts, log
      ensures Valid() && Progressed()
      ensures done <= |calls| && (!raised ==> done == |calls|) && (raised ==> 0 < done)
      ensures !raised ==> Core() == RunCore(old(Core()), calls, started, clock, schema)
      ensures Core().body == RunCore(old(Core()), calls[..done], started, clock, schema).body
      ensures |tried| == done && Attempted(old(Core()), calls, tried)
      ensures forall i :: 0 <= i < done ==> (Escapes(tried[i]) <==> raised && i == done - 1)
      ensures done > 0 && tried[done - 1].Some? ==> Tried(tried[done - 1].value)
      ensures ClosesWork() ==> !raised
    {
      hide Shaped, EncodedLog, Grew, StepCore, LogShape, Sizes, Raises, Saving, Tried, Escapes,
           Core, CoreOk, Attempted;
      ghost var l0, c0, s0 := logged, log.content, report.logStatus;
      ghost var m0 := Core();
      GrewSelf(l0, c0, s0, s0);
      done, raised, tried := 0, false, [];
      NoneAttempted(m0, calls);
      while done < |calls| && !raised
        invariant done <= |calls| && (raised ==> 0 < done)
        invariant Valid() && Grew(l0, c0, s0, logged, log.content, report.logStatus)
        invariant !raised ==> Core() == RunCore(m0, calls[..done], started, clock, schema)
        invariant Core().body == RunCore(m0, calls[..done], started, clock, schema).body
        invariant |tried| == done && Attempted(m0, calls, tried)
        invariant forall i :: 0 <= i < done ==> (Escapes(tried[i]) <==> raised && i == done - 1)
        invariant done > 0 && tried[done - 1].Some? ==> Tried(tried[done - 1].value)
        decreases |calls| - done, !raised
      {
        ghost var l1, c1, s1 := logged, log.content, report.logStatus;
        ghost var saved;
        raised, saved := Perform(calls[done]);
        GrewTwice(l0, c0, s0, l1, c1, s1, logged, log.content, report.logStatus);
        assert calls[..done + 1][..done] == calls[..done];
        AttemptedMore(m0, calls, tried, saved);
        tried := tried + [saved];
        done := done + 1;
      }
      assert calls[..|calls|] == calls;
      if raised && ClosesWork() {
        NoEscape(tried[done - 1]);
      }
    }

    static function Newest(s: seq<Event>): Event
      requires s != []
    {
      s[|s| - 1]
    }
  }

  /** Logging never interferes: two recorders given the same calls and the same clock agree on
      everything but identity, timestamps and log state, whatever happens to their files, as
      far as both get; and neither is stopped early while closing files works. */
  method TwoRuns(a: Recorder, b: Recorder, calls: seq<Call>)
    returns (done: nat, done': nat, raised: bool, raised': bool)
    requires a != b && a.log != b.log && a.Valid() && b.Valid()
    requires a.Core() == b.Core()
    requires a.started == b.started && a.clock == b.clock && a.schema == b.schema
    modifies a, b, a.log, b.log
    ensures a.Valid() && b.Valid()
    ensures done <= |calls| && done' <= |calls|
    ensures (!raised ==> done == |calls|) && (!raised' ==> done' == |calls|)
    ensures a.Core().body == RunCore(old(a.Core()), calls[..done], a.started, a.clock, a.schema).body
    ensures b.Core().body == RunCore(old(a.Core()), calls[..done'], a.started, a.clock, a.schema).body
    ensures done == done' ==> a.Core().body == b.Core().body
    ensures !raised && !raised' ==> a.Core() == b.Core()
    ensures (a.ClosesWork() ==> !raised) && (b.ClosesWork() ==> !raised')
    ensures !old(a.Core().terminal) && Ending(calls).Some? && !raised ==>
              (a.report.body.terminalStatus.Succeeded?
               <==> Ending(calls) == Some(0)
                    && LastVerdict(calls, a.schema, old(a.report.body.terminalStatus)).Succeeded?)
  {
    hide Shaped, EncodedLog, Grew, RunCore;
    if !a.terminal {
      SuccessExactly(a.Core(), calls, a.started, a.clock, a.schema);
    }
    ghost var tried, tried';
    done, raised, tried := a.Run(calls);
    done', raised', tried' := b.Run(calls);
  }
}
