/** What a session recorder keeps in memory, as pure functions of the calls made and of
    the clock: none of it may depend on how logging fares. */
module Observation {
  import opened Bytes

  datatype EventKind =
    | SessionStart | SessionEnd | NamespaceEnd | StageStart | StageEnd
    | SpanStart | SpanEnd | CommandEnd | EngineEnd | CaptureFailed
  {
    predicate OfStage() {
      StageStart? || StageEnd?
    }

    predicate OfSpan() {
      SpanStart? || SpanEnd?
    }

    predicate IsEnd() {
      SessionEnd? || NamespaceEnd? || StageEnd? || SpanEnd? || CommandEnd? || EngineEnd?
    }
  }

  datatype Status = NotStarted | Running | Success | Failed | Interrupted | Unknown

  datatype Terminal = Pending | Succeeded | Broken | Incomplete | Unclear

  datatype Cleanup = NotRun | Clean | Unclean | Unsure

  /** An event as handed in; `Foreign` is anything that lacks the payload's shape. */
  datatype Value =
    | Foreign
    | Payload(kind: EventKind, stageId: Option<int>, operationId: string, status: Status,
              durationMs: Option<int>, exitCode: Option<int>, errorCode: Option<string>)

  datatype Verdict =
    | ForeignVerdict
    | Verdict(terminalStatus: Terminal, failedStage: Option<int>, lastSuccessfulStage: int,
              primaryError: Option<string>, cleanupStatus: Cleanup,
              remainingResources: Option<int>, engineDurationMs: Option<int>)

  /** The enumerations that the observability schema lists. */
  datatype Schema = Schema(operations: set<string>, errors: set<string>)

  const SPANS: seq<string> := ["preflight", "copy.main", "copy.efi", "diagnostics", "cleanup", "engine"]

  const DAY_MS := 86400000

  ghost predicate SchemaOk(s: Schema) {
    && (forall i :: 0 <= i < 6 ==> SPANS[i] in s.operations)
    && "stage.command" in s.operations && "session" in s.operations
    && "ENGINE_CRASH" in s.errors
  }

  predicate ErrorOk(error: Option<string>, s: Schema) {
    error.None? || error.value in s.errors
  }

  predicate Within(n: Option<int>, low: int, high: int) {
    n.None? || low <= n.value <= high
  }

  predicate ValidPayload(v: Value, s: Schema) {
    && v.Payload?
    && Within(v.stageId, 1, 9)
    && v.operationId in s.operations
    && Within(v.durationMs, 0, DAY_MS)
    && Within(v.exitCode, -0x8000_0000, 0x7fff_ffff)
    && ErrorOk(v.errorCode, s)
  }

  predicate ValidVerdict(v: Verdict, s: Schema) {
    && v.Verdict?
    && Within(v.failedStage, 1, 9)
    && 0 <= v.lastSuccessfulStage <= 9
    && ErrorOk(v.primaryError, s)
    && Within(v.remainingResources, 0, 16384)
    && Within(v.engineDurationMs, 0, DAY_MS)
  }

  /** One stage or span of the report. */
  datatype Item = Item(status: Status, durationMs: Option<int>)

  /** The report without its identity, timestamps and log state. */
  datatype Body = Body(
    terminalStatus: Terminal, failedStage: Option<int>, lastSuccessfulStage: int,
    primaryError: Option<string>, cleanupStatus: Cleanup, remainingResources: Option<int>,
    sessionError: Option<string>, remainingSessionResources: Option<int>,
    lastFailedOperation: Option<string>, lastExitCode: Option<int>,
    engineDurationMs: Option<int>, supervisorDurationMs: Option<int>,
    stages: seq<Item>, spans: seq<Item>)

  datatype Key = StageKey(stage: Option<int>) | SpanKey(operation: string)

  datatype Core = Core(
    body: Body, stack: seq<string>, starts: map<Key, int>, stage: Option<int>,
    operation: string, ticks: nat, terminal: bool)

  ghost predicate CoreOk(m: Core) {
    |m.body.stages| == 9 && |m.body.spans| == 6
  }

  function Last(s: seq<string>): string
    requires s != []
  {
    s[|s| - 1]
  }

  function SpanIndex(operation: string): (r: Option<nat>)
    ensures r.Some? <==> operation in SPANS
    ensures r.Some? ==> r.value < 6 && SPANS[r.value] == operation
  {
    if operation == "preflight" then assert SPANS[0] == operation; Some(0)
    else if operation == "copy.main" then assert SPANS[1] == operation; Some(1)
    else if operation == "copy.efi" then assert SPANS[2] == operation; Some(2)
    else if operation == "diagnostics" then assert SPANS[3] == operation; Some(3)
    else if operation == "cleanup" then assert SPANS[4] == operation; Some(4)
    else if operation == "engine" then assert SPANS[5] == operation; Some(5)
    else None
  }

  lemma SpanIndexOf(k: nat)
    requires k < 6
    ensures SpanIndex(SPANS[k]) == Some(k)
  {
  }

  function Clamp(ns: int): (ms: int)
    ensures 0 <= ms <= DAY_MS
  {
    var ms := ns / 1000000;
    if ms < 0 then 0 else if ms > DAY_MS then DAY_MS else ms
  }

  /** Whole milliseconds, from none to one day. */
  lemma ClampTells(ns: int)
    ensures ns < 0 ==> Clamp(ns) == 0
    ensures 0 <= ns <= 86_400_000_000_000 ==> Clamp(ns) * 1_000_000 <= ns < Clamp(ns) * 1_000_000 + 1_000_000
    ensures ns > 86_400_000_000_000 ==> Clamp(ns) == 24 * 60 * 60 * 1000
  {
  }

  // ---- observe ----

  predicate Overflows(m: Core, v: Value)
    requires v.Payload?
  {
    v.kind.SpanStart? && |m.stack| >= 16
  }

  function Stacked(stack: seq<string>, v: Value): seq<string>
    requires v.Payload?
  {
    if v.kind.SpanStart? then stack + [v.operationId]
    else if v.kind.SpanEnd? && stack != [] && Last(stack) == v.operationId then stack[..|stack| - 1]
    else stack
  }

  function OperationAfter(operation: string, stack: seq<string>, v: Value): string
    requires v.Payload?
  {
    if !v.kind.OfSpan() then operation
    else if stack != [] then Last(stack) else "stage.command"
  }

  function StageAfter(stage: Option<int>, v: Value): Option<int>
    requires v.Payload?
  {
    if !v.kind.OfStage() || v.stageId.None? then stage
    else if v.kind.StageStart? then v.stageId else None
  }

  function KeyOf(v: Value): Key
    requires v.Payload?
  {
    if v.kind.OfStage() then StageKey(v.stageId) else SpanKey(v.operationId)
  }

  function Started(starts: map<Key, int>, v: Value, now: int): map<Key, int>
    requires v.Payload?
  {
    if v.kind.StageStart? || v.kind.SpanStart? then starts[KeyOf(v) := now]
    else if v.kind.IsEnd() then starts - {KeyOf(v)}
    else starts
  }

  function Exited(b: Body, v: Value): Body
    requires v.Payload?
  {
    if v.kind.CommandEnd? && v.exitCode.Some? && v.exitCode.value != 0
    then b.(lastFailedOperation := Some(v.operationId), lastExitCode := v.exitCode)
    else b
  }

  function Staged(b: Body, v: Value): Body
    requires v.Payload? && Within(v.stageId, 1, 9) && |b.stages| == 9
  {
    if !v.kind.OfStage() || v.stageId.None? then b
    else
      var c := b.(stages := b.stages[v.stageId.value - 1 := Item(v.status, v.durationMs)]);
      if !v.kind.StageEnd? then c
      else if v.status.Success? then c.(lastSuccessfulStage := v.stageId.value)
      else if (v.status.Failed? || v.status.Interrupted?) && c.failedStage.None?
      then c.(failedStage := v.stageId)
      else c
  }

  lemma StagedKeeps(r: Body, b: Body, v: Value)
    requires v.Payload? && Within(v.stageId, 1, 9) && |b.stages| == 9 && |b.spans| == 6
    requires r == Staged(b, v)
    ensures |r.stages| == 9 && r.spans == b.spans
    ensures |Spanned(r, v).stages| == 9 && |Spanned(r, v).spans| == 6
  {
  }

  lemma ExitedKeeps(b: Body, v: Value)
    requires v.Payload?
    ensures Exited(b, v).stages == b.stages && Exited(b, v).spans == b.spans
  {
  }

  function Spanned(b: Body, v: Value): Body
    requires v.Payload? && |b.spans| == 6
  {
    if v.kind.OfSpan() && SpanIndex(v.operationId).Some?
    then b.(spans := b.spans[SpanIndex(v.operationId).value := Item(v.status, v.durationMs)])
    else b
  }

  predicate Accepted(m: Core, v: Value, s: Schema) {
    ValidPayload(v, s) && !m.terminal && !Overflows(m, v)
  }

  function ObserveCore(m: Core, v: Value, clock: nat -> int, s: Schema): (r: Core)
    requires CoreOk(m)
    ensures CoreOk(r) && r.terminal == m.terminal
    ensures r.body.terminalStatus == m.body.terminalStatus
  {
    if !Accepted(m, v, s) then m
    else
      var stack := Stacked(m.stack, v);
      m.(stack := stack,
         operation := OperationAfter(m.operation, stack, v),
         starts := Started(m.starts, v, clock(m.ticks)),
         ticks := if v.kind.StageStart? || v.kind.SpanStart? then m.ticks + 1 else m.ticks,
         stage := StageAfter(m.stage, v),
         body := Spanned(Staged(Exited(m.body, v), v), v))
  }

  lemma Refused(m: Core, v: Value, clock: nat -> int, s: Schema)
    requires CoreOk(m) && !Accepted(m, v, s)
    ensures ObserveCore(m, v, clock, s) == m
  {
  }

  // ---- outcome ----

  function OutcomeCore(m: Core, v: Verdict, s: Schema): (r: Core)
    requires CoreOk(m)
    ensures CoreOk(r) && r.terminal == m.terminal
  {
    if !ValidVerdict(v, s) || m.terminal then m
    else m.(body := m.body.(
              terminalStatus := v.terminalStatus, failedStage := v.failedStage,
              lastSuccessfulStage := v.lastSuccessfulStage, primaryError := v.primaryError,
              cleanupStatus := v.cleanupStatus, remainingResources := v.remainingResources,
              engineDurationMs := v.engineDurationMs))
  }

  // ---- finish ----

  /** Python's `error or otherwise`. */
  function Or(error: Option<string>, otherwise: string): (r: Option<string>)
    ensures r.Some?
  {
    if error.None? || error.value == "" then Some(otherwise) else error
  }

  function Concluded(b: Body, status: int, error: Option<string>, remaining: Option<int>): (r: Body)
    ensures r.stages == b.stages && r.spans == b.spans
  {
    var c := b.(sessionError := error, remainingSessionResources := remaining);
    if c.terminalStatus.Pending? then
      if status == 0 then
        c.(terminalStatus := Unclear, primaryError := None, cleanupStatus := Unsure,
           sessionError := Some("OBSERVATION_INCOMPLETE"))
      else if error == Some("NAMESPACE_FAILED") then
        c.(terminalStatus := Broken, primaryError := error, cleanupStatus := NotRun,
           remainingResources := Some(0))
      else
        c.(terminalStatus := Terminal.Incomplete, primaryError := Or(error, "ENGINE_CRASH"), cleanupStatus := Unsure,
           remainingResources := None)
    else if status != 0 && c.terminalStatus.Succeeded? then
      c.(terminalStatus := Broken, primaryError := Or(error, "SESSION_FINALIZATION_FAILED"),
         sessionError := Or(error, "SESSION_FINALIZATION_FAILED"))
    else c
  }

  function ItemAt(b: Body, k: nat): Item
    requires |b.stages| == 9 && |b.spans| == 6 && k < 15
  {
    if k < 9 then b.stages[k] else b.spans[k - 9]
  }

  function ItemKey(k: nat): Key
    requires k < 15
  {
    if k < 9 then StageKey(Some(k + 1)) else SpanKey(SPANS[k - 9])
  }

  function InterruptPayload(k: nat, duration: int, error: Option<string>): (v: Value)
    requires k < 15
    ensures v.Payload?
  {
    var code := Or(error, "ENGINE_CRASH");
    if k < 9 then Payload(StageEnd, Some(k + 1), "stage.command", Interrupted, Some(duration), None, code)
    else Payload(SpanEnd, None, SPANS[k - 9], Interrupted, Some(duration), None, code)
  }

  function InterruptItem(m: Core, k: nat, error: Option<string>, clock: nat -> int, s: Schema): (r: Core)
    requires CoreOk(m) && k < 15
    ensures CoreOk(r) && r.terminal == m.terminal && r.body.terminalStatus == m.body.terminalStatus
  {
    if !ItemAt(m.body, k).status.Running? then m
    else
      var start := if ItemKey(k) in m.starts then m.starts[ItemKey(k)] else clock(m.ticks);
      ObserveCore(m.(ticks := m.ticks + 2),
                  InterruptPayload(k, Clamp(clock(m.ticks + 1) - start), error), clock, s)
  }

  function InterruptUpTo(m: Core, n: nat, error: Option<string>, clock: nat -> int, s: Schema): (r: Core)
    requires CoreOk(m) && n <= 15
    ensures CoreOk(r) && r.terminal == m.terminal && r.body.terminalStatus == m.body.terminalStatus
  {
    if n == 0 then m
    else InterruptItem(InterruptUpTo(m, n - 1, error, clock, s), n - 1, error, clock, s)
  }

  function SessionEndPayload(status: int, error: Option<string>, duration: int): (v: Value)
    ensures v.Payload?
  {
    Payload(SessionEnd, None, "session", if status == 0 then Success else Failed,
            Some(duration), Some(status), error)
  }

  /** The last record calls the session a success precisely if its exit status is 0. */
  lemma LastRecordTells(status: int, error: Option<string>, duration: int)
    ensures var v := SessionEndPayload(status, error, duration);
            && v.kind.SessionEnd? && v.operationId == "session" && v.stageId.None? && v.durationMs == Some(duration)
            && (v.status.Success? <==> v.exitCode == Some(0)) && (v.status.Failed? <==> v.exitCode != Some(0))
            && v.exitCode == Some(status) && v.errorCode == error
  {
  }

  function EndedCore(m: Core, status: int, error: Option<string>, started: int, clock: nat -> int, s: Schema): (r: Core)
    requires CoreOk(m)
    ensures CoreOk(r) && r.terminal == m.terminal
    ensures r.body.terminalStatus == m.body.terminalStatus
  {
    var b := m.(body := m.body.(supervisorDurationMs := Some(Clamp(clock(m.ticks) - started))),
                ticks := m.ticks + 2);
    ObserveCore(b, SessionEndPayload(status, error, Clamp(clock(m.ticks + 1) - started)), clock, s)
  }

  /** Everything `finish` does to the core before the flag that ends the session. */
  function FinishingCore(m: Core, status: int, error: Option<string>, remaining: Option<int>,
                         started: int, clock: nat -> int, s: Schema): (r: Core)
    requires CoreOk(m)
    ensures CoreOk(r) && r.terminal == m.terminal
    ensures r.body.terminalStatus == Concluded(m.body, status, error, remaining).terminalStatus
  {
    var a := InterruptUpTo(m.(body := Concluded(m.body, status, error, remaining)), 15, error, clock, s);
    EndedCore(a, status, error, started, clock, s)
  }

  function FinishCore(m: Core, status: int, error: Option<string>, remaining: Option<int>,
                      started: int, clock: nat -> int, s: Schema): (r: Core)
    requires CoreOk(m)
    ensures CoreOk(r) && r.terminal
  {
    if m.terminal then m
    else FinishingCore(m, status, error, remaining, started, clock, s).(terminal := true)
  }

  // ---- whole sessions ----

  datatype Call =
    | Observe(value: Value, role: string)
    | Outcome(verdict: Verdict)
    | Finish(status: int, error: Option<string>, remaining: Option<int>)

  function StepCore(m: Core, c: Call, started: int, clock: nat -> int, s: Schema): (r: Core)
    requires CoreOk(m)
    ensures CoreOk(r)
  {
    match c
    case Observe(v, _) => ObserveCore(m, v, clock, s)
    case Outcome(v) => OutcomeCore(m, v, s)
    case Finish(status, error, remaining) => FinishCore(m, status, error, remaining, started, clock, s)
  }

  function RunCore(m: Core, calls: seq<Call>, started: int, clock: nat -> int, s: Schema): (r: Core)
    requires CoreOk(m)
    ensures CoreOk(r)
  {
    if calls == [] then m
    else StepCore(RunCore(m, calls[..|calls| - 1], started, clock, s), calls[|calls| - 1], started, clock, s)
  }

  const FRESH := Item(NotStarted, None)

  function InitialBody(): (b: Body)
    ensures |b.stages| == 9 && |b.spans| == 6
  {
    Body(Pending, None, 0, None, NotRun, None, None, None, None, None, None, None,
         [FRESH, FRESH, FRESH, FRESH, FRESH, FRESH, FRESH, FRESH, FRESH],
         [FRESH, FRESH, FRESH, FRESH, FRESH, FRESH])
  }

  function InitialCore(ticks: nat): (m: Core)
    ensures CoreOk(m)
  {
    Core(InitialBody(), [], map[], None, "unclassified", ticks, false)
  }

  /** The exit status that ended the session, and the last verdict accepted before it. */
  function Ending(calls: seq<Call>): Option<int> {
    if calls == [] then None
    else if calls[0].Finish? then Some(calls[0].status)
    else Ending(calls[1..])
  }

  function LastVerdict(calls: seq<Call>, s: Schema, before: Terminal): Terminal {
    if calls == [] || calls[0].Finish? then before
    else if calls[0].Outcome? && ValidVerdict(calls[0].verdict, s)
    then LastVerdict(calls[1..], s, calls[0].verdict.terminalStatus)
    else LastVerdict(calls[1..], s, before)
  }

  lemma {:induction false} RunCoreFront(m: Core, calls: seq<Call>, started: int, clock: nat -> int, s: Schema)
    requires CoreOk(m) && calls != []
    ensures RunCore(m, calls, started, clock, s)
         == RunCore(StepCore(m, calls[0], started, clock, s), calls[1..], started, clock, s)
  {
    var front := calls[..|calls| - 1];
    if front == [] {
      assert calls[1..] == [];
      assert RunCore(m, front, started, clock, s) == m;
    } else {
      RunCoreFront(m, front, started, clock, s);
      assert front[1..] == calls[1..][..|calls| - 2];
      assert front[0] == calls[0];
    }
  }

  /** Once finished, no call changes anything the core holds. */
  lemma {:induction false} FinishedIsFrozen(m: Core, calls: seq<Call>, started: int, clock: nat -> int, s: Schema)
    requires CoreOk(m) && m.terminal
    ensures RunCore(m, calls, started, clock, s) == m
  {
    if calls != [] {
      FinishedIsFrozen(m, calls[..|calls| - 1], started, clock, s);
    }
  }

  /** A finished report says success exactly when the last verdict accepted before the end
      said success and the exit status was zero. */
  lemma {:induction false} SuccessExactly(m: Core, calls: seq<Call>, started: int, clock: nat -> int, s: Schema)
    requires CoreOk(m) && !m.terminal
    ensures RunCore(m, calls, started, clock, s).terminal <==> Ending(calls).Some?
    ensures Ending(calls).Some? ==>
              (RunCore(m, calls, started, clock, s).body.terminalStatus.Succeeded?
               <==> LastVerdict(calls, s, m.body.terminalStatus).Succeeded? && Ending(calls) == Some(0))
    decreases |calls|
  {
    hide ObserveCore, FinishingCore;
    if calls != [] {
      var next := StepCore(m, calls[0], started, clock, s);
      RunCoreFront(m, calls, started, clock, s);
      if calls[0].Finish? {
        FinishedIsFrozen(next, calls[1..], started, clock, s);
      } else {
        SuccessExactly(next, calls[1..], started, clock, s);
      }
    }
  }

  lemma {:induction false} NoVerdict(calls: seq<Call>, s: Schema, before: Terminal)
    requires forall i :: 0 <= i < |calls| ==> !calls[i].Outcome?
    ensures LastVerdict(calls, s, before) == before
  {
    if calls != [] && !calls[0].Finish? {
      NoVerdict(calls[1..], s, before);
    }
  }

  lemma {:induction false} NoFinishNoVerdict(m: Core, calls: seq<Call>, started: int, clock: nat -> int, s: Schema)
    requires CoreOk(m)
    requires forall i :: 0 <= i < |calls| ==> !calls[i].Outcome?
    requires Ending(calls).None?
    ensures RunCore(m, calls, started, clock, s).body.terminalStatus == m.body.terminalStatus
    decreases |calls|
  {
    if calls != [] {
      RunCoreFront(m, calls, started, clock, s);
      NoFinishNoVerdict(StepCore(m, calls[0], started, clock, s), calls[1..], started, clock, s);
    }
  }

  /** A session that reported nothing never ends in success. */
  lemma {:induction false} SilentSessionIsNoSuccess(calls: seq<Call>, ticks: nat, started: int, clock: nat -> int,
                                                    s: Schema)
    requires forall i :: 0 <= i < |calls| ==> !calls[i].Outcome?
    ensures !RunCore(InitialCore(ticks), calls, started, clock, s).body.terminalStatus.Succeeded?
  {
    hide RunCore, LastVerdict, Ending;
    var m := InitialCore(ticks);
    if Ending(calls).None? {
      NoFinishNoVerdict(m, calls, started, clock, s);
    } else {
      NoVerdict(calls, s, m.body.terminalStatus);
      SuccessExactly(m, calls, started, clock, s);
    }
  }

  // ---- what the report says before the end ----

  /** A session so far: any events and verdicts, but not the end. */
  ghost predicate Unfinished(calls: seq<Call>) {
    forall i :: 0 <= i < |calls| ==> !calls[i].Finish?
  }

  predicate Decides(c: Call, s: Schema) {
    c.Outcome? && ValidVerdict(c.verdict, s)
  }

  /** A stage event lets itself in: it is never stopped by the span limit. */
  predicate StageEvent(c: Call, s: Schema) {
    c.Observe? && ValidPayload(c.value, s) && c.value.kind.OfStage() && c.value.stageId.Some?
  }

  predicate StageFails(c: Call, s: Schema) {
    StageEvent(c, s) && c.value.kind.StageEnd? && (c.value.status.Failed? || c.value.status.Interrupted?)
  }

  predicate StageSucceeds(c: Call, s: Schema) {
    StageEvent(c, s) && c.value.kind.StageEnd? && c.value.status.Success?
  }

  predicate CommandFails(c: Call, s: Schema) {
    && c.Observe? && ValidPayload(c.value, s) && c.value.kind.CommandEnd?
    && c.value.exitCode.Some? && c.value.exitCode.value != 0
  }

  predicate SpanEvent(c: Call, operation: string, s: Schema) {
    c.Observe? && ValidPayload(c.value, s) && c.value.kind.OfSpan() && c.value.operationId == operation
  }

  /** Call i is the first, or the last, that satisfies a test. */
  ghost predicate First(calls: seq<Call>, test: Call -> bool, i: int) {
    0 <= i < |calls| && test(calls[i]) && forall j :: 0 <= j < i ==> !test(calls[j])
  }

  ghost predicate Latest(calls: seq<Call>, test: Call -> bool, i: int) {
    0 <= i < |calls| && test(calls[i]) && forall j :: i < j < |calls| ==> !test(calls[j])
  }

  ghost predicate Never(calls: seq<Call>, test: Call -> bool) {
    forall i :: 0 <= i < |calls| ==> !test(calls[i])
  }

  lemma OneMoreCall(calls: seq<Call>, test: Call -> bool)
    requires calls != []
    ensures var n, front := |calls| - 1, calls[..|calls| - 1];
            && (Never(calls, test) <==> Never(front, test) && !test(calls[n]))
            && (test(calls[n]) ==> Latest(calls, test, n))
            && (!test(calls[n]) ==> forall i :: Latest(front, test, i) ==> Latest(calls, test, i))
  {
  }

  /** The five items that only a verdict sets. */
  predicate SetBy(b: Body, v: Verdict)
    requires v.Verdict?
  {
    && b.terminalStatus == v.terminalStatus && b.primaryError == v.primaryError
    && b.cleanupStatus == v.cleanupStatus && b.remainingResources == v.remainingResources
    && b.engineDurationMs == v.engineDurationMs
  }

  predicate SameVerdict(a: Body, b: Body) {
    && a.terminalStatus == b.terminalStatus && a.primaryError == b.primaryError
    && a.cleanupStatus == b.cleanupStatus && a.remainingResources == b.remainingResources
    && a.engineDurationMs == b.engineDurationMs
  }

  /** The three items that only the end sets. */
  predicate SameEnding(a: Body, b: Body) {
    && a.sessionError == b.sessionError && a.remainingSessionResources == b.remainingSessionResources
    && a.supervisorDurationMs == b.supervisorDurationMs
  }

  /** What one call before the end does to the items that show the latest call of some kind. */
  lemma CallEffect(m: Core, c: Call, k: int, started: int, clock: nat -> int, s: Schema)
    requires CoreOk(m) && !m.terminal && !c.Finish? && 1 <= k <= 9
    ensures var r := StepCore(m, c, started, clock, s).body;
            && (if CommandFails(c, s)
                then r.lastFailedOperation == Some(c.value.operationId) && r.lastExitCode == c.value.exitCode
                else r.lastFailedOperation == m.body.lastFailedOperation && r.lastExitCode == m.body.lastExitCode)
            && r.stages[k - 1] == (if StageEvent(c, s) && c.value.stageId == Some(k)
                                   then Item(c.value.status, c.value.durationMs) else m.body.stages[k - 1])
            && r.failedStage ==
               (if Decides(c, s) then c.verdict.failedStage
                else if StageFails(c, s) && m.body.failedStage.None? then c.value.stageId else m.body.failedStage)
            && Some(r.lastSuccessfulStage) ==
               (if Decides(c, s) then Some(c.verdict.lastSuccessfulStage)
                else if StageSucceeds(c, s) then c.value.stageId else Some(m.body.lastSuccessfulStage))
            && (if Decides(c, s) then SetBy(r, c.verdict) else SameVerdict(r, m.body))
            && SameEnding(r, m.body)
  {
  }

  lemma {:induction false} UnfinishedGoesOn(calls: seq<Call>, ticks: nat, started: int, clock: nat -> int, s: Schema)
    requires Unfinished(calls)
    ensures !RunCore(InitialCore(ticks), calls, started, clock, s).terminal
    ensures SameEnding(RunCore(InitialCore(ticks), calls, started, clock, s).body, InitialBody())
  {
    if calls != [] {
      UnfinishedGoesOn(calls[..|calls| - 1], ticks, started, clock, s);
    }
  }

  /** The verdict's own items are those of the latest verdict taken over; what only the end
      sets is still as at the start. */
  lemma {:induction false} VerdictIsLatest(calls: seq<Call>, ticks: nat, started: int, clock: nat -> int, s: Schema)
    requires Unfinished(calls)
    ensures var b, test := RunCore(InitialCore(ticks), calls, started, clock, s).body, (c: Call) => Decides(c, s);
            && SameEnding(b, InitialBody())
            && if Never(calls, test) then SameVerdict(b, InitialBody())
               else exists i :: Latest(calls, test, i) && SetBy(b, calls[i].verdict)
  {
    UnfinishedGoesOn(calls, ticks, started, clock, s);
    if calls != [] {
      var test, n, front := (c: Call) => Decides(c, s), |calls| - 1, calls[..|calls| - 1];
      VerdictIsLatest(front, ticks, started, clock, s);
      UnfinishedGoesOn(front, ticks, started, clock, s);
      CallEffect(RunCore(InitialCore(ticks), front, started, clock, s), calls[n], 1, started, clock, s);
      OneMoreCall(calls, test);
      hide StepCore, Never, ValidVerdict, CoreOk;
      if test(calls[n]) {
        assert Latest(calls, test, n);
      } else if !Never(front, test) {
        var i :| Latest(front, test, i)
          && SetBy(RunCore(InitialCore(ticks), front, started, clock, s).body, front[i].verdict);
        assert Latest(calls, test, i);
      }
    }
  }

  /** The stage of the first call that satisfies a test, or none. */
  ghost predicate StageOfFirst(calls: seq<Call>, test: Call -> bool, stage: Option<int>) {
    if stage.None? then Never(calls, test)
    else exists i :: First(calls, test, i) && calls[i].Observe? && calls[i].value.Payload?
                     && calls[i].value.stageId == stage
  }

  /** The calls after the latest verdict, and the failed stage that it named. */
  ghost predicate Since(calls: seq<Call>, from: int, named: Option<int>, s: Schema) {
    && 0 <= from <= |calls| && Never(calls[from..], (c: Call) => Decides(c, s))
    && if from == 0 then named.None? else Decides(calls[from - 1], s) && named == calls[from - 1].verdict.failedStage
  }

  /** The failed stage is the one that the latest verdict named; if it named none, that of the
      first stage that ended badly after it. */
  ghost predicate FailedSince(calls: seq<Call>, from: int, named: Option<int>, failed: Option<int>, s: Schema) {
    && Since(calls, from, named, s)
    && if named.Some? then failed == named else StageOfFirst(calls[from..], (c: Call) => StageFails(c, s), failed)
  }

  lemma {:induction false} FailedStageIsFirst(calls: seq<Call>, ticks: nat, started: int, clock: nat -> int, s: Schema)
    requires Unfinished(calls)
    ensures exists from, named ::
              FailedSince(calls, from, named, RunCore(InitialCore(ticks), calls, started, clock, s).body.failedStage, s)
  {
    if calls == [] {
      assert FailedSince(calls, 0, None, RunCore(InitialCore(ticks), calls, started, clock, s).body.failedStage, s);
    } else {
      var n, front := |calls| - 1, calls[..|calls| - 1];
      FailedStageIsFirst(front, ticks, started, clock, s);
      UnfinishedGoesOn(front, ticks, started, clock, s);
      var m := RunCore(InitialCore(ticks), front, started, clock, s);
      CallEffect(m, calls[n], 1, started, clock, s);
      hide StepCore, CoreOk, FailedSince, Decides, StageFails;
      var from, named :| FailedSince(front, from, named, m.body.failedStage, s);
      FailedGoesOn(calls, from, named, m.body.failedStage, s);
      assert RunCore(InitialCore(ticks), calls, started, clock, s) == StepCore(m, calls[n], started, clock, s);
    }
  }

  lemma FailedGoesOn(calls: seq<Call>, from: int, named: Option<int>, before: Option<int>, s: Schema)
    requires calls != [] && FailedSince(calls[..|calls| - 1], from, named, before, s)
    ensures var c := calls[|calls| - 1];
            if Decides(c, s) then FailedSince(calls, |calls|, c.verdict.failedStage, c.verdict.failedStage, s)
            else FailedSince(calls, from, named,
                             if StageFails(c, s) && before.None? then c.value.stageId else before, s)
  {
    var c, n := calls[|calls| - 1], |calls| - 1;
    hide ValidPayload, ValidVerdict;
    if Decides(c, s) {
      assert calls[|calls|..] == [];
    } else {
      var front := calls[..n][from..];
      assert calls[from..][..|calls[from..]| - 1] == front && calls[from..] == front + [c];
      FirstGoesOn(calls[from..], (c: Call) => StageFails(c, s), before, named);
    }
  }

  lemma FirstGoesOn(calls: seq<Call>, test: Call -> bool, before: Option<int>, named: Option<int>)
    requires calls != []
    requires if named.Some? then before == named else StageOfFirst(calls[..|calls| - 1], test, before)
    requires var c := calls[|calls| - 1]; test(c) ==> c.Observe? && c.value.Payload? && c.value.stageId.Some?
    ensures var c := calls[|calls| - 1];
            var after := if test(c) && before.None? then c.value.stageId else before;
            if named.Some? then after == named else StageOfFirst(calls, test, after)
  {
    var n, front := |calls| - 1, calls[..|calls| - 1];
    if named.Some? {
    } else if before.Some? {
      var i :| First(front, test, i) && front[i].Observe? && front[i].value.Payload?
        && front[i].value.stageId == before;
      assert First(calls, test, i);
    } else if test(calls[n]) {
      assert First(calls, test, n);
    }
  }

  /** The last successful stage is that of the latest stage that ended well or the latest
      verdict, whichever came later. */
  lemma {:induction false} SuccessfulStageIsLatest(calls: seq<Call>, ticks: nat, started: int, clock: nat -> int,
                                                   s: Schema)
    requires Unfinished(calls)
    ensures var last, test := RunCore(InitialCore(ticks), calls, started, clock, s).body.lastSuccessfulStage,
                              (c: Call) => StageSucceeds(c, s) || Decides(c, s);
            if Never(calls, test) then last == 0
            else exists i :: Latest(calls, test, i) && NamesLast(calls[i], last)
  {
    if calls != [] {
      var test, n, front := (c: Call) => StageSucceeds(c, s) || Decides(c, s), |calls| - 1, calls[..|calls| - 1];
      SuccessfulStageIsLatest(front, ticks, started, clock, s);
      UnfinishedGoesOn(front, ticks, started, clock, s);
      CallEffect(RunCore(InitialCore(ticks), front, started, clock, s), calls[n], 1, started, clock, s);
      OneMoreCall(calls, test);
      hide StepCore, Never, ValidPayload, ValidVerdict;
      if test(calls[n]) {
        assert Latest(calls, test, n);
      } else if !Never(front, test) {
        var i :| Latest(front, test, i)
          && NamesLast(front[i], RunCore(InitialCore(ticks), front, started, clock, s).body.lastSuccessfulStage);
        assert Latest(calls, test, i);
      }
    }
  }

  predicate NamesLast(c: Call, stage: int) {
    if c.Outcome? then c.verdict.Verdict? && c.verdict.lastSuccessfulStage == stage
    else c.Observe? && c.value.Payload? && c.value.stageId == Some(stage)
  }

  /** Operation and exit code are those of the latest command that failed. */
  lemma {:induction false} FailedOperationIsLatest(calls: seq<Call>, ticks: nat, started: int, clock: nat -> int,
                                                   s: Schema)
    requires Unfinished(calls)
    ensures var b, test := RunCore(InitialCore(ticks), calls, started, clock, s).body, (c: Call) => CommandFails(c, s);
            if Never(calls, test) then b.lastFailedOperation.None? && b.lastExitCode.None?
            else exists i :: Latest(calls, test, i) && b.lastFailedOperation == Some(calls[i].value.operationId)
                             && b.lastExitCode == calls[i].value.exitCode
  {
    if calls != [] {
      var test, n, front := (c: Call) => CommandFails(c, s), |calls| - 1, calls[..|calls| - 1];
      FailedOperationIsLatest(front, ticks, started, clock, s);
      UnfinishedGoesOn(front, ticks, started, clock, s);
      CallEffect(RunCore(InitialCore(ticks), front, started, clock, s), calls[n], 1, started, clock, s);
      OneMoreCall(calls, test);
      hide StepCore, Never, CommandFails;
      if test(calls[n]) {
        assert Latest(calls, test, n);
      } else if !Never(front, test) {
        var b := RunCore(InitialCore(ticks), front, started, clock, s).body;
        var i :| Latest(front, test, i) && b.lastFailedOperation == Some(front[i].value.operationId)
          && b.lastExitCode == front[i].value.exitCode;
        assert Latest(calls, test, i);
      }
    }
  }

  /** Each stage shows its latest event. */
  lemma {:induction false} StageShowsLatest(calls: seq<Call>, k: int, ticks: nat, started: int, clock: nat -> int,
                                            s: Schema)
    requires Unfinished(calls) && 1 <= k <= 9
    ensures var item, test := RunCore(InitialCore(ticks), calls, started, clock, s).body.stages[k - 1],
                              (c: Call) => StageEvent(c, s) && c.value.stageId == Some(k);
            if Never(calls, test) then item == FRESH
            else exists i :: Latest(calls, test, i) && item == Item(calls[i].value.status, calls[i].value.durationMs)
  {
    if calls != [] {
      var test := (c: Call) => StageEvent(c, s) && c.value.stageId == Some(k);
      var n, front := |calls| - 1, calls[..|calls| - 1];
      StageShowsLatest(front, k, ticks, started, clock, s);
      UnfinishedGoesOn(front, ticks, started, clock, s);
      CallEffect(RunCore(InitialCore(ticks), front, started, clock, s), calls[n], k, started, clock, s);
      OneMoreCall(calls, test);
      hide StepCore, Never, ValidPayload;
      if test(calls[n]) {
        assert Latest(calls, test, n);
      } else if !Never(front, test) {
        var item := RunCore(InitialCore(ticks), front, started, clock, s).body.stages[k - 1];
        var i :| Latest(front, test, i) && item == Item(front[i].value.status, front[i].value.durationMs);
        assert Latest(calls, test, i);
      }
    }
  }

  // ---- spans and start times, which depend on the open spans ----

  /** The session after its first n calls. */
  ghost function CoreAt(calls: seq<Call>, n: int, ticks: nat, started: int, clock: nat -> int, s: Schema): (m: Core)
    requires 0 <= n <= |calls|
    ensures CoreOk(m)
  {
    RunCore(InitialCore(ticks), calls[..n], started, clock, s)
  }

  lemma CoreStep(calls: seq<Call>, n: int, ticks: nat, started: int, clock: nat -> int, s: Schema)
    requires Unfinished(calls) && 0 < n <= |calls|
    ensures CoreAt(calls, n, ticks, started, clock, s)
            == StepCore(CoreAt(calls, n - 1, ticks, started, clock, s), calls[n - 1], started, clock, s)
    ensures !CoreAt(calls, n - 1, ticks, started, clock, s).terminal
  {
    assert calls[..n][..n - 1] == calls[..n - 1];
    UnfinishedGoesOn(calls[..n - 1], ticks, started, clock, s);
  }

  /** Position i is the last below n where the test holds. */
  ghost predicate LastBelow(n: int, test: int -> bool, i: int) {
    0 <= i < n && test(i) && forall j :: i < j < n ==> !test(j)
  }

  /** The value of the last position below n where the test holds, or the first value. */
  ghost predicate LastValue<T>(n: int, test: int -> bool, value: int -> T, first: T, x: T) {
    if forall i :: 0 <= i < n ==> !test(i) then x == first
    else exists i :: LastBelow(n, test, i) && x == value(i)
  }

  lemma LastValueGoesOn<T>(n: int, test: int -> bool, value: int -> T, first: T, x: T)
    requires 0 <= n && LastValue(n, test, value, first, x)
    ensures LastValue(n + 1, test, value, first, if test(n) then value(n) else x)
  {
    if test(n) {
      assert LastBelow(n + 1, test, n);
    } else if k :| 0 <= k < n && test(k) {
      var i :| LastBelow(n, test, i) && x == value(i);
      assert LastBelow(n + 1, test, i);
    }
  }

  /** Call i is an event of this operation's span, and is not stopped by the limit on open spans. */
  ghost predicate SpanShown(calls: seq<Call>, i: int, operation: string, ticks: nat, started: int, clock: nat -> int,
                            s: Schema)
  {
    && 0 <= i < |calls| && SpanEvent(calls[i], operation, s)
    && (calls[i].value.kind.SpanStart? ==> |CoreAt(calls, i, ticks, started, clock, s).stack| < 16)
  }

  function ItemOf(c: Call): Item {
    if c.Observe? && c.value.Payload? then Item(c.value.status, c.value.durationMs) else FRESH
  }

  function ItemIn(calls: seq<Call>, i: int): Item {
    if 0 <= i < |calls| then ItemOf(calls[i]) else FRESH
  }

  /** What one call before the end does to a span. */
  lemma SpanEffect(m: Core, c: Call, k: nat, started: int, clock: nat -> int, s: Schema)
    requires CoreOk(m) && !m.terminal && !c.Finish? && k < 6
    ensures StepCore(m, c, started, clock, s).body.spans[k]
            == if SpanEvent(c, SPANS[k], s) && (c.value.kind.SpanStart? ==> |m.stack| < 16)
               then Item(c.value.status, c.value.durationMs) else m.body.spans[k]
  {
    SpanIndexOf(k);
    if c.Observe? && c.value.Payload? && SpanIndex(c.value.operationId) == Some(k) {
      assert c.value.operationId == SPANS[k];
    }
  }

  /** Each span shows its latest event that was let in. */
  lemma {:induction false} SpanShowsLatest(calls: seq<Call>, n: nat, k: nat, ticks: nat, started: int,
                                           clock: nat -> int, s: Schema)
    requires Unfinished(calls) && n <= |calls| && k < 6
    ensures LastValue(n, i => SpanShown(calls, i, SPANS[k], ticks, started, clock, s), i => ItemIn(calls, i), FRESH,
                      CoreAt(calls, n, ticks, started, clock, s).body.spans[k])
  {
    if n > 0 {
      var test, value := (i: int) => SpanShown(calls, i, SPANS[k], ticks, started, clock, s), i => ItemIn(calls, i);
      var m := CoreAt(calls, n - 1, ticks, started, clock, s);
      SpanShowsLatest(calls, n - 1, k, ticks, started, clock, s);
      CoreStep(calls, n, ticks, started, clock, s);
      SpanEffect(m, calls[n - 1], k, started, clock, s);
      hide StepCore, CoreAt, LastValue;
      LastValueGoesOn(n - 1, test, value, FRESH, m.body.spans[k]);
    }
  }

  /** Call i is an event of some stage. */
  ghost predicate OfSomeStage(calls: seq<Call>, i: int, s: Schema) {
    0 <= i < |calls| && StageEvent(calls[i], s) && calls[i].value.stageId.Some?
  }

  /** The stage that an event leaves as the current one. */
  function StageLeft(calls: seq<Call>, i: int): Option<int> {
    if 0 <= i < |calls| && calls[i].Observe? && calls[i].value.Payload? && calls[i].value.kind.StageStart?
    then calls[i].value.stageId else None
  }

  /** The current stage is that of the latest stage event, if this is a start. */
  lemma {:induction false} CurrentStageIsLatest(calls: seq<Call>, n: nat, ticks: nat, started: int,
                                                clock: nat -> int, s: Schema)
    requires Unfinished(calls) && n <= |calls|
    ensures LastValue(n, i => OfSomeStage(calls, i, s), i => StageLeft(calls, i), None,
                      CoreAt(calls, n, ticks, started, clock, s).stage)
  {
    if n > 0 {
      var test, value := (i: int) => OfSomeStage(calls, i, s), (i: int) => StageLeft(calls, i);
      var m := CoreAt(calls, n - 1, ticks, started, clock, s);
      CurrentStageIsLatest(calls, n - 1, ticks, started, clock, s);
      CoreStep(calls, n, ticks, started, clock, s);
      CurrentEffect(m, calls, n - 1, started, clock, s);
      hide StepCore, CoreAt, LastValue;
      LastValueGoesOn(n - 1, test, value, None, m.stage);
    }
  }

  lemma CurrentEffect(m: Core, calls: seq<Call>, i: nat, started: int, clock: nat -> int, s: Schema)
    requires CoreOk(m) && !m.terminal && i < |calls| && !calls[i].Finish?
    ensures StepCore(m, calls[i], started, clock, s).stage
            == if OfSomeStage(calls, i, s) then StageLeft(calls, i) else m.stage
  {
  }

  /** A span that is let in opens on top of the others; only the end of the one on top closes it,
      and then everything is as before. */
  lemma SpansNest(m: Core, start: Value, end: Value, clock: nat -> int, s: Schema)
    requires CoreOk(m) && Accepted(m, start, s) && start.kind.SpanStart?
    requires ValidPayload(end, s) && end.kind.SpanEnd?
    ensures var inside := ObserveCore(m, start, clock, s);
            var after := ObserveCore(inside, end, clock, s);
            && inside.stack == m.stack + [start.operationId] && inside.operation == start.operationId
            && |inside.stack| <= 16
            && (if end.operationId == start.operationId
                then after.stack == m.stack && (m.stack != [] ==> after.operation == Last(m.stack))
                else after.stack == inside.stack && after.operation == start.operationId)
  {
  }

  /** Call i starts or ends what the key names, and is let in. */
  ghost predicate TimedAt(calls: seq<Call>, i: int, key: Key, ticks: nat, started: int, clock: nat -> int, s: Schema)
  {
    && 0 <= i < |calls| && Timed(CoreAt(calls, i, ticks, started, clock, s), calls[i], key, s)
  }

  predicate Starts(v: Value) {
    v.Payload? && (v.kind.StageStart? || v.kind.SpanStart?)
  }

  predicate Timed(m: Core, c: Call, key: Key, s: Schema) {
    c.Observe? && Accepted(m, c.value, s) && (Starts(c.value) || c.value.kind.IsEnd()) && KeyOf(c.value) == key
  }

  /** What call i puts on record: a start time, or nothing. */
  ghost function TimeAt(calls: seq<Call>, i: int, ticks: nat, started: int, clock: nat -> int, s: Schema): Option<int>
  {
    if 0 <= i < |calls| && calls[i].Observe? && Starts(calls[i].value)
    then Some(clock(CoreAt(calls, i, ticks, started, clock, s).ticks)) else None
  }

  function Recorded(starts: map<Key, int>, key: Key): Option<int> {
    if key in starts then Some(starts[key]) else None
  }

  lemma TimeEffect(m: Core, c: Call, key: Key, started: int, clock: nat -> int, s: Schema)
    requires CoreOk(m) && !m.terminal && !c.Finish?
    ensures Recorded(StepCore(m, c, started, clock, s).starts, key)
            == if Timed(m, c, key, s) then (if Starts(c.value) then Some(clock(m.ticks)) else None)
               else Recorded(m.starts, key)
  {
  }

  /** The start time on record is that of the latest start that has not ended since. */
  lemma {:induction false} StartIsLatest(calls: seq<Call>, n: nat, key: Key, ticks: nat, started: int,
                                         clock: nat -> int, s: Schema)
    requires Unfinished(calls) && n <= |calls|
    ensures LastValue(n, i => TimedAt(calls, i, key, ticks, started, clock, s),
                      i => TimeAt(calls, i, ticks, started, clock, s), None,
                      Recorded(CoreAt(calls, n, ticks, started, clock, s).starts, key))
  {
    if n > 0 {
      var test, value := (i: int) => TimedAt(calls, i, key, ticks, started, clock, s),
          (i: int) => TimeAt(calls, i, ticks, started, clock, s);
      var m := CoreAt(calls, n - 1, ticks, started, clock, s);
      StartIsLatest(calls, n - 1, key, ticks, started, clock, s);
      CoreStep(calls, n, ticks, started, clock, s);
      TimeEffect(m, calls[n - 1], key, started, clock, s);
      hide StepCore, CoreAt, LastValue;
      LastValueGoesOn(n - 1, test, value, None, Recorded(m.starts, key));
    }
  }

  // ---- what finishing leaves behind ----

  predicate RunningAt(m: Core, k: nat)
    requires CoreOk(m)
  {
    k < 15 && ItemAt(m.body, k).status.Running?
  }

  /** What the event that ends an item does: nothing if the error code is unknown. */
  lemma EndEffect(m: Core, k: nat, duration: int, error: Option<string>, clock: nat -> int, s: Schema)
    requires CoreOk(m) && k < 15 && SchemaOk(s) && !m.terminal && 0 <= duration <= DAY_MS
    ensures var r := ObserveCore(m, InterruptPayload(k, duration, error), clock, s);
            && (forall j :: 0 <= j < 15 && j != k ==> ItemAt(r.body, j) == ItemAt(m.body, j))
            && ItemAt(r.body, k) == if ErrorOk(Or(error, "ENGINE_CRASH"), s) then Item(Interrupted, Some(duration))
                                    else ItemAt(m.body, k)
  {
    if k >= 9 {
      SpanIndexOf(k - 9);
    }
  }

  /** One interruption touches only its own item, and stops it exactly when the error code
      is one the schema knows. */
  lemma InterruptOne(m: Core, k: nat, error: Option<string>, clock: nat -> int, s: Schema)
    requires CoreOk(m) && k < 15 && SchemaOk(s) && !m.terminal
    ensures var r, key := InterruptItem(m, k, error, clock, s),
                          if k < 9 then StageKey(Some(k + 1)) else SpanKey(SPANS[k - 9]);
            && (forall j :: 0 <= j < 15 && j != k ==> ItemAt(r.body, j) == ItemAt(m.body, j))
            && (RunningAt(r, k) <==> RunningAt(m, k) && !ErrorOk(Or(error, "ENGINE_CRASH"), s))
            && (RunningAt(m, k) && !RunningAt(r, k) ==>
                  ItemAt(r.body, k) == Item(Interrupted, Some(Clamp(
                    if key in m.starts then clock(m.ticks + 1) - m.starts[key]
                    else clock(m.ticks + 1) - clock(m.ticks)))))
  {
    hide ObserveCore, InterruptPayload, ErrorOk, Clamp;
    if RunningAt(m, k) {
      var start := if ItemKey(k) in m.starts then m.starts[ItemKey(k)] else clock(m.ticks);
      EndEffect(m.(ticks := m.ticks + 2), k, Clamp(clock(m.ticks + 1) - start), error, clock, s);
    }
  }

  lemma {:induction false} InterruptMany(m: Core, n: nat, error: Option<string>, clock: nat -> int, s: Schema)
    requires CoreOk(m) && n <= 15 && SchemaOk(s) && !m.terminal
    ensures var r := InterruptUpTo(m, n, error, clock, s);
            && (forall j :: n <= j < 15 ==> ItemAt(r.body, j) == ItemAt(m.body, j))
            && (forall j :: 0 <= j < n ==>
                  (RunningAt(r, j) <==> RunningAt(m, j) && !ErrorOk(Or(error, "ENGINE_CRASH"), s)))
  {
    if n > 0 {
      hide InterruptItem, ErrorOk;
      var before := InterruptUpTo(m, n - 1, error, clock, s);
      var after := InterruptUpTo(m, n, error, clock, s);
      InterruptMany(m, n - 1, error, clock, s);
      InterruptOne(before, n - 1, error, clock, s);
      assert RunningAt(before, n - 1) == RunningAt(m, n - 1);
      forall j | 0 <= j < n - 1
        ensures RunningAt(after, j) == RunningAt(before, j)
      {
        assert ItemAt(after.body, j) == ItemAt(before.body, j);
      }
    }
  }

  /** Finishing leaves a stage or span running exactly when it ran before and the caller's
      error code is outside the schema. */
  lemma FinishStopsEverything(m: Core, status: int, error: Option<string>, remaining: Option<int>,
                              started: int, clock: nat -> int, s: Schema, k: nat)
    requires CoreOk(m) && SchemaOk(s) && !m.terminal && k < 15
    ensures RunningAt(FinishCore(m, status, error, remaining, started, clock, s), k)
            <==> RunningAt(m, k) && !ErrorOk(Or(error, "ENGINE_CRASH"), s)
  {
    hide InterruptUpTo, ErrorOk, Within;
    var n := m.(body := Concluded(m.body, status, error, remaining));
    InterruptMany(n, 15, error, clock, s);
    var a := InterruptUpTo(n, 15, error, clock, s);
    var r := FinishCore(m, status, error, remaining, started, clock, s);
    assert r.body.stages == a.body.stages && r.body.spans == a.body.spans;
    assert RunningAt(r, k) == RunningAt(a, k) && RunningAt(n, k) == RunningAt(m, k);
  }

  /** How the end of a session turns what the verdicts said into the final word. Without a verdict
      a clean exit is unclear, a session that could not set up its namespace is broken, and any
      other is incomplete; a success does not survive a failing exit; any other verdict stands. */
  lemma FinishDecides(m: Core, status: int, error: Option<string>, remaining: Option<int>,
                      started: int, clock: nat -> int, s: Schema)
    requires CoreOk(m) && !m.terminal
    ensures var b := FinishCore(m, status, error, remaining, started, clock, s).body;
            var silent, late := m.body.terminalStatus.Pending?, m.body.terminalStatus.Succeeded? && status != 0;
            && (!silent && !late ==> SameVerdict(b, m.body) && b.sessionError == error)
            && (late ==> b.terminalStatus == Broken && b.sessionError == b.primaryError
                         && b.primaryError == Or(error, "SESSION_FINALIZATION_FAILED")
                         && b.cleanupStatus == m.body.cleanupStatus && b.engineDurationMs == m.body.engineDurationMs
                         && b.remainingResources == m.body.remainingResources)
            && (silent && status == 0 ==>
                  b.terminalStatus == Unclear && b.primaryError.None? && b.cleanupStatus == Unsure
                  && b.sessionError == Some("OBSERVATION_INCOMPLETE")
                  && b.remainingResources == m.body.remainingResources)
            && (silent && status != 0 && error == Some("NAMESPACE_FAILED") ==>
                  b.terminalStatus == Broken && b.primaryError == error && b.sessionError == error
                  && b.cleanupStatus == NotRun && b.remainingResources == Some(0))
            && (silent && status != 0 && error != Some("NAMESPACE_FAILED") ==>
                  b.terminalStatus == Terminal.Incomplete && b.primaryError == Or(error, "ENGINE_CRASH")
                  && b.sessionError == error && b.cleanupStatus == Unsure && b.remainingResources.None?)
            && b.remainingSessionResources == remaining && b.supervisorDurationMs.Some?
            && (silent ==> b.engineDurationMs == m.body.engineDurationMs)
  {
    var n := m.(body := Concluded(m.body, status, error, remaining));
    InterruptsKeep(n, 15, error, clock, s);
    hide InterruptUpTo, Clamp;
    EndKeeps(InterruptUpTo(n, 15, error, clock, s), status, error, started, clock, s);
  }

  /** Interruptions leave the final word alone. */
  lemma {:induction false} InterruptsKeep(m: Core, n: nat, error: Option<string>, clock: nat -> int, s: Schema)
    requires CoreOk(m) && n <= 15
    ensures var b := InterruptUpTo(m, n, error, clock, s).body; SameVerdict(b, m.body) && SameEnding(b, m.body)
  {
    if n > 0 {
      InterruptsKeep(m, n - 1, error, clock, s);
      InterruptKeeps(InterruptUpTo(m, n - 1, error, clock, s), n - 1, error, clock, s);
      hide InterruptItem;
    }
  }

  lemma InterruptKeeps(m: Core, k: nat, error: Option<string>, clock: nat -> int, s: Schema)
    requires CoreOk(m) && k < 15
    ensures var b := InterruptItem(m, k, error, clock, s).body; SameVerdict(b, m.body) && SameEnding(b, m.body)
  {
    hide InterruptPayload, Clamp, Accepted;
  }

  lemma EndKeeps(m: Core, status: int, error: Option<string>, started: int, clock: nat -> int, s: Schema)
    requires CoreOk(m)
    ensures var b := EndedCore(m, status, error, started, clock, s).body;
            && SameVerdict(b, m.body) && b.sessionError == m.body.sessionError
            && b.remainingSessionResources == m.body.remainingSessionResources
            && b.supervisorDurationMs == Some(Clamp(clock(m.ticks) - started))
  {
    hide Accepted, Clamp;
  }
}
