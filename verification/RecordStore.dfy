/** The store that all sessions share.  Starts are serialised by the store lock, but running
    sessions write, finish and die while a start is measuring them. */
module RecordStore {
  import opened Bytes

  /** The configured limits, and the least size a stored summary can have. */
  datatype Limits = Limits(sessionBytes: nat, summaryBytes: nat, sessions: nat, storeBytes: nat, leastSummary: nat)

  /** What one session may hold: its log, its summary and one temporary summary. */
  function Reservation(l: Limits): nat {
    l.sessionBytes + 2 * l.summaryBytes
  }

  /** A session directory; it is active while its recorder holds the lock on the log.  It grows
      only if its first summary was stored: a recorder that failed there writes nothing more. */
  datatype Session = Session(active: bool, grows: bool, size: nat)

  /** A start in progress: what each session has been counted as, and the size read for the
      one whose lock is still to be tried. */
  datatype Scan = Scan(counted: seq<Option<nat>>, seen: Option<(nat, nat)>)

  datatype Store = Store(sessions: seq<Session>, scan: Option<Scan>)

  datatype Step =
    | Lock
    | Stat(i: nat, size: nat)
    | TryLock(i: nat)
    | Admit(grows: bool, size: nat)
    | Refuse
    | Write(i: nat, size: nat)
    | Finish(i: nat)

  const EMPTY := Store([], None)

  function Counted(c: seq<Option<nat>>): nat {
    if c == [] then 0
    else Counted(c[..|c| - 1]) + (if c[|c| - 1].Some? then c[|c| - 1].value else 0)
  }

  predicate StoreFull(l: Limits, n: nat) {
    n >= 1 && n >= l.sessions
  }

  function Next(l: Limits, s: Store, step: Step): Option<Store> {
    var n := |s.sessions|;
    match step
    case Lock =>
      if s.scan.None? then Some(s.(scan := Some(Scan(seq(n, _ => None), None)))) else None
    case Stat(i, size) =>
      // The files of an active session change while they are read one by one.
      if s.scan.Some? && s.scan.value.seen.None? && i < |s.scan.value.counted| && i < n
         && s.scan.value.counted[i].None? && size <= Reservation(l)
         && (if s.sessions[i].active && s.sessions[i].grows then l.leastSummary <= size
             else size == s.sessions[i].size)
      then Some(s.(scan := Some(s.scan.value.(seen := Some((i, size)))))) else None
    case TryLock(i) =>
      if s.scan.Some? && s.scan.value.seen.Some? && s.scan.value.seen.value.0 == i
         && i < |s.scan.value.counted| && i < n
      then
        var charge := if s.sessions[i].active then Reservation(l) else s.scan.value.seen.value.1;
        Some(s.(scan := Some(Scan(s.scan.value.counted[i := Some(charge)], None))))
      else None
    case Admit(grows, size) =>
      // The first summary is saved before the store lock is released.
      if s.scan.Some? && s.scan.value.seen.None? && AllCounted(s.scan.value.counted)
         && !StoreFull(l, n) && Counted(s.scan.value.counted) + Reservation(l) <= l.storeBytes
         && size <= l.summaryBytes && (grows ==> l.leastSummary <= size)
      then Some(Store(s.sessions + [Session(true, grows, size)], None)) else None
    case Refuse =>
      if s.scan.Some? then Some(s.(scan := None)) else None
    case Write(i, size) =>
      if i < n && s.sessions[i].active && s.sessions[i].grows && l.leastSummary <= size <= Reservation(l)
      then Some(s.(sessions := s.sessions[i := Session(true, true, size)])) else None
    case Finish(i) =>
      if i < n && s.sessions[i].active
      then Some(s.(sessions := s.sessions[i := s.sessions[i].(active := false)])) else None
  }

  predicate AllCounted(c: seq<Option<nat>>) {
    forall i :: 0 <= i < |c| ==> c[i].Some?
  }

  /** The state a schedule leads to, if every step of it can be taken. */
  function After(l: Limits, s: Store, steps: seq<Step>): Option<Store> {
    if steps == [] then Some(s)
    else
      var before := After(l, s, steps[..|steps| - 1]);
      if before.None? then None else Next(l, before.value, steps[|steps| - 1])
  }

  function Held(sessions: seq<Session>): nat {
    if sessions == [] then 0 else Held(sessions[..|sessions| - 1]) + sessions[|sessions| - 1].size
  }

  function Charge(l: Limits, s: Session): nat {
    if s.active then Reservation(l) else s.size
  }

  function Charged(l: Limits, sessions: seq<Session>): nat {
    if sessions == [] then 0
    else Charged(l, sessions[..|sessions| - 1]) + Charge(l, sessions[|sessions| - 1])
  }

  function AtLeastOne(n: nat): nat {
    if n == 0 then 1 else n
  }

  // ---- what holds in every schedule ----

  /** A session that grows holds a summary and at most its reservation; any other at most the
      one summary it tried to save. */
  predicate SizeOk(l: Limits, s: Session) {
    if s.grows then l.leastSummary <= l.summaryBytes && l.leastSummary <= s.size <= Reservation(l)
    else s.size <= l.summaryBytes
  }

  ghost predicate Sane(l: Limits, s: Store) {
    && (forall i :: 0 <= i < |s.sessions| ==> SizeOk(l, s.sessions[i]))
    && (s.scan.Some? ==> |s.scan.value.counted| == |s.sessions|)
    && |s.sessions| <= AtLeastOne(l.sessions)
    && (s.sessions != [] ==> Reservation(l) <= l.storeBytes)
  }

  lemma {:induction false} AlwaysSane(l: Limits, steps: seq<Step>)
    ensures After(l, EMPTY, steps).Some? ==> Sane(l, After(l, EMPTY, steps).value)
  {
    if steps != [] {
      AlwaysSane(l, steps[..|steps| - 1]);
    }
  }

  /** The number of sessions stays within its limit in every schedule exactly when the limit
      is at least one or nothing is ever admitted: the test sits inside the loop over existing
      sessions, so the very first start is never refused by it. */
  lemma SessionCountExactly(l: Limits)
    ensures (forall steps: seq<Step> :: After(l, EMPTY, steps).Some? ==>
               |After(l, EMPTY, steps).value.sessions| <= l.sessions)
            <==> l.sessions >= 1 || Reservation(l) > l.storeBytes
  {
    forall steps: seq<Step> | After(l, EMPTY, steps).Some?
      ensures |After(l, EMPTY, steps).value.sessions| <= AtLeastOne(l.sessions)
      ensures Reservation(l) > l.storeBytes ==> After(l, EMPTY, steps).value.sessions == []
    {
      AlwaysSane(l, steps);
    }
    if Reservation(l) <= l.storeBytes {
      var locked := Next(l, EMPTY, Lock).value;
      var first := [Lock] + [Admit(false, 0)];
      AfterOne(l, EMPTY, Lock);
      AfterOne(l, locked, Admit(false, 0));
      AfterAppend(l, EMPTY, [Lock], [Admit(false, 0)]);
      assert |After(l, EMPTY, first).value.sessions| == 1;
    }
  }

  // ---- schedules in which no session is undercounted ----

  /** Every session found unlocked was counted at no less than it holds. */
  ghost predicate Calm(l: Limits, s: Store, step: Step) {
    step.TryLock? && s.scan.Some? && s.scan.value.seen.Some? && step.i < |s.sessions| && !s.sessions[step.i].active
    ==> s.sessions[step.i].size <= s.scan.value.seen.value.1
  }

  ghost predicate AllCalm(l: Limits, steps: seq<Step>) {
    forall k :: 0 <= k < |steps| && After(l, EMPTY, steps[..k]).Some? ==>
      Calm(l, After(l, EMPTY, steps[..k]).value, steps[k])
  }

  ghost predicate Covered(l: Limits, s: Store) {
    && Sane(l, s)
    && Charged(l, s.sessions) <= l.storeBytes
    && (s.scan.Some? ==>
          forall i :: 0 <= i < |s.sessions| && s.scan.value.counted[i].Some? ==>
            Charge(l, s.sessions[i]) <= s.scan.value.counted[i].value)
  }

  lemma {:induction false} ChargedUpdate(l: Limits, sessions: seq<Session>, i: nat, s: Session)
    requires i < |sessions|
    ensures Charged(l, sessions[i := s]) == Charged(l, sessions) - Charge(l, sessions[i]) + Charge(l, s)
  {
    var n := |sessions| - 1;
    if i == n {
      assert sessions[i := s][..n] == sessions[..n];
    } else {
      assert sessions[i := s][..n] == sessions[..n][i := s];
      ChargedUpdate(l, sessions[..n], i, s);
    }
  }

  lemma {:induction false} CountedCovers(l: Limits, sessions: seq<Session>, counted: seq<Option<nat>>)
    requires |counted| == |sessions| && AllCounted(counted)
    requires forall i :: 0 <= i < |sessions| ==> Charge(l, sessions[i]) <= counted[i].value
    ensures Charged(l, sessions) <= Counted(counted)
  {
    var n := |sessions|;
    if n > 0 {
      CountedCovers(l, sessions[..n - 1], counted[..n - 1]);
    }
  }

  lemma CalmStep(l: Limits, s: Store, step: Step)
    requires Covered(l, s) && Calm(l, s, step) && Next(l, s, step).Some?
    ensures Covered(l, Next(l, s, step).value)
  {
    hide Charged, Counted;
    var t := Next(l, s, step).value;
    match step {
      case Write(i, size) => ChargedUpdate(l, s.sessions, i, t.sessions[i]);
      case Finish(i) => ChargedUpdate(l, s.sessions, i, t.sessions[i]);
      case Admit(grows, size) =>
        CountedCovers(l, s.sessions, s.scan.value.counted);
        AddedCharge(l, s.sessions, Session(true, grows, size));
      case _ =>
    }
  }

  lemma AddedCharge(l: Limits, sessions: seq<Session>, s: Session)
    ensures Charged(l, sessions + [s]) == Charged(l, sessions) + Charge(l, s)
  {
  }

  // ---- limits under which an undercounted session leaves no room for another ----

  /** A start behind a session that grows never fits, or no session ever grows. */
  predicate Crowded(l: Limits) {
    l.storeBytes < Reservation(l) + l.leastSummary || l.leastSummary > l.summaryBytes
  }

  /** Whatever the start under way has counted, or is about to, is enough, or is the size of
      a session that grows and at least its least summary. */
  ghost predicate Guarded(l: Limits, s: Store) {
    && Sane(l, s)
    && Charged(l, s.sessions) <= l.storeBytes
    && (s.scan.Some? ==>
          && (forall i :: 0 <= i < |s.sessions| && s.scan.value.counted[i].Some? ==>
                Enough(l, s.sessions[i], Charge(l, s.sessions[i]), s.scan.value.counted[i].value))
          && (s.scan.value.seen.Some? && s.scan.value.seen.value.0 < |s.sessions| ==>
                Enough(l, s.sessions[s.scan.value.seen.value.0], s.sessions[s.scan.value.seen.value.0].size,
                       s.scan.value.seen.value.1)))
  }

  predicate Enough(l: Limits, s: Session, least: nat, n: nat) {
    least <= n || (s.grows && l.leastSummary <= n)
  }

  lemma {:induction false} CountedAtLeast(c: seq<Option<nat>>, i: nat)
    requires i < |c| && c[i].Some?
    ensures c[i].value <= Counted(c)
  {
    if i < |c| - 1 {
      CountedAtLeast(c[..|c| - 1], i);
    }
  }

  /** While such a start fits, nothing that grows has been admitted, so nothing is undercounted. */
  lemma NothingGrows(l: Limits, s: Store)
    requires Guarded(l, s) && Crowded(l) && s.scan.Some? && AllCounted(s.scan.value.counted)
    requires Counted(s.scan.value.counted) + Reservation(l) <= l.storeBytes
    ensures Charged(l, s.sessions) <= Counted(s.scan.value.counted)
  {
    hide Charged, Counted;
    var counted := s.scan.value.counted;
    forall i | 0 <= i < |s.sessions|
      ensures Charge(l, s.sessions[i]) <= counted[i].value
    {
      CountedAtLeast(counted, i);
      assert Enough(l, s.sessions[i], Charge(l, s.sessions[i]), counted[i].value);
      assert SizeOk(l, s.sessions[i]);
    }
    CountedCovers(l, s.sessions, counted);
  }

  lemma GuardedStep(l: Limits, s: Store, step: Step)
    requires Guarded(l, s) && Crowded(l) && Next(l, s, step).Some?
    ensures Guarded(l, Next(l, s, step).value)
  {
    hide Charged, Counted;
    var t := Next(l, s, step).value;
    match step {
      case Write(i, size) => ChargedUpdate(l, s.sessions, i, t.sessions[i]);
      case Finish(i) => ChargedUpdate(l, s.sessions, i, t.sessions[i]);
      case Admit(grows, size) =>
        NothingGrows(l, s);
        AddedCharge(l, s.sessions, Session(true, grows, size));
      case _ =>
    }
  }

  lemma {:induction false} CrowdedKeepsQuota(l: Limits, steps: seq<Step>)
    requires Crowded(l) && After(l, EMPTY, steps).Some?
    ensures Guarded(l, After(l, EMPTY, steps).value)
    ensures Held(After(l, EMPTY, steps).value.sessions) <= l.storeBytes
  {
    hide Next;
    if steps != [] {
      CrowdedKeepsQuota(l, steps[..|steps| - 1]);
      GuardedStep(l, After(l, EMPTY, steps[..|steps| - 1]).value, steps[|steps| - 1]);
    }
    HeldWithinCharge(l, After(l, EMPTY, steps).value.sessions);
  }

  lemma {:induction false} HeldWithinCharge(l: Limits, sessions: seq<Session>)
    requires forall i :: 0 <= i < |sessions| ==> sessions[i].size <= Reservation(l)
    ensures Held(sessions) <= Charged(l, sessions)
  {
    if sessions != [] {
      HeldWithinCharge(l, sessions[..|sessions| - 1]);
    }
  }

  /** As long as no session is undercounted, the bytes held by all sessions, active ones
      counted at their full reservation, never exceed the quota. */
  lemma {:induction false} CalmRunsKeepQuota(l: Limits, steps: seq<Step>)
    requires AllCalm(l, steps) && After(l, EMPTY, steps).Some?
    ensures Covered(l, After(l, EMPTY, steps).value)
    ensures Held(After(l, EMPTY, steps).value.sessions) <= l.storeBytes
  {
    if steps != [] {
      var front := steps[..|steps| - 1];
      forall k | 0 <= k < |front| && After(l, EMPTY, front[..k]).Some?
        ensures Calm(l, After(l, EMPTY, front[..k]).value, front[k])
      {
        assert front[..k] == steps[..k];
      }
      CalmRunsKeepQuota(l, front);
      CalmStep(l, After(l, EMPTY, front).value, steps[|steps| - 1]);
    }
    HeldWithinCharge(l, After(l, EMPTY, steps).value.sessions);
  }

  // ---- every schedule ----

  /** `n` times the reservation. */
  function Reservations(l: Limits, n: nat): nat {
    if n == 0 then 0 else Reservations(l, n - 1) + Reservation(l)
  }

  lemma {:induction false} ReservationsIsProduct(l: Limits, n: nat)
    ensures Reservations(l, n) == n * Reservation(l)
  {
    if n > 0 {
      ReservationsIsProduct(l, n - 1);
    }
  }

  lemma {:induction false} ReservationsGrow(l: Limits, n: nat, m: nat)
    requires n <= m
    ensures Reservations(l, n) <= Reservations(l, m)
    decreases m
  {
    if n < m {
      ReservationsGrow(l, n, m - 1);
    }
  }

  lemma {:induction false} HeldAtMost(l: Limits, sessions: seq<Session>)
    requires forall i :: 0 <= i < |sessions| ==> sessions[i].size <= Reservation(l)
    ensures Held(sessions) <= Reservations(l, |sessions|)
  {
    if sessions != [] {
      HeldAtMost(l, sessions[..|sessions| - 1]);
    }
  }

  function Repeat<T>(n: nat, x: T): (r: seq<T>)
    ensures |r| == n && forall i :: 0 <= i < n ==> r[i] == x
  {
    if n == 0 then [] else Repeat(n - 1, x) + [x]
  }

  lemma {:induction false} AfterAppend(l: Limits, s: Store, a: seq<Step>, b: seq<Step>)
    requires After(l, s, a).Some?
    ensures After(l, s, a + b) == After(l, After(l, s, a).value, b)
  {
    if b == [] {
      assert a + b == a;
    } else {
      assert (a + b)[..|a + b| - 1] == a + b[..|b| - 1];
      AfterAppend(l, s, a, b[..|b| - 1]);
    }
  }

  lemma AfterOne(l: Limits, s: Store, step: Step)
    ensures After(l, s, [step]) == Next(l, s, step)
  {
  }

  /** A session that has just stored its first summary, and one that is full. */
  function Fresh(l: Limits): Session {
    Session(true, true, l.leastSummary)
  }

  function Full(l: Limits, active: bool): Session {
    Session(active, true, Reservation(l))
  }

  /** k such sessions, of which the first i have been counted. */
  function Measuring(l: Limits, i: nat, k: nat): Store
    requires i <= k
  {
    Store(Repeat(k, Fresh(l)),
          Some(Scan(Repeat(i, Some(Reservation(l))) + Repeat(k - i, None), None)))
  }

  lemma {:induction false} MeasureAll(l: Limits, i: nat, k: nat) returns (steps: seq<Step>)
    requires i <= k && l.leastSummary <= l.summaryBytes
    ensures After(l, Measuring(l, i, k), steps) == Some(Measuring(l, k, k))
    decreases k - i
  {
    var s := Measuring(l, i, k);
    if i == k {
      steps := [];
    } else {
      var t := Next(l, s, Stat(i, l.leastSummary)).value;
      var u := Next(l, t, TryLock(i)).value;
      assert u.scan.value.counted == Repeat(i + 1, Some(Reservation(l))) + Repeat(k - i - 1, None);
      assert u == Measuring(l, i + 1, k);
      var rest := MeasureAll(l, i + 1, k);
      AfterOne(l, s, Stat(i, l.leastSummary));
      AfterOne(l, t, TryLock(i));
      AfterAppend(l, s, [Stat(i, l.leastSummary)], [TryLock(i)]);
      AfterAppend(l, s, [Stat(i, l.leastSummary)] + [TryLock(i)], rest);
      steps := [Stat(i, l.leastSummary)] + [TryLock(i)] + rest;
    }
  }

  lemma {:induction false} CountedRepeat(n: nat, v: nat)
    ensures Counted(Repeat<Option<nat>>(n, Some(v))) == n * v
  {
    if n > 0 {
      CountedRepeat(n - 1, v);
      assert Repeat<Option<nat>>(n, Some(v))[..n - 1] == Repeat<Option<nat>>(n - 1, Some(v));
      assert n * v == (n - 1) * v + v;
    }
  }

  lemma LockStep(l: Limits, k: nat)
    ensures Next(l, Store(Repeat(k, Fresh(l)), None), Lock) == Some(Measuring(l, 0, k))
  {
    var s := Store(Repeat(k, Fresh(l)), None);
    assert Next(l, s, Lock).value.scan.value.counted == Repeat(0, Some(Reservation(l))) + Repeat(k, None);
  }

  lemma AdmitStep(l: Limits, k: nat)
    requires k < AtLeastOne(l.sessions) && Reservations(l, k + 1) <= l.storeBytes && l.leastSummary <= l.summaryBytes
    ensures Next(l, Measuring(l, k, k), Admit(true, l.leastSummary)) == Some(Store(Repeat(k + 1, Fresh(l)), None))
  {
    var t := Measuring(l, k, k);
    assert t.scan.value.counted == Repeat(k, Some(Reservation(l)));
    CountedRepeat(k, Reservation(l));
    ReservationsIsProduct(l, k);
  }

  /** As many sessions as the quota has room for can all be active at once. */
  lemma {:induction false} FillStore(l: Limits, k: nat) returns (steps: seq<Step>)
    requires k <= AtLeastOne(l.sessions) && Reservations(l, k) <= l.storeBytes && l.leastSummary <= l.summaryBytes
    ensures After(l, EMPTY, steps) == Some(Store(Repeat(k, Fresh(l)), None))
  {
    if k == 0 {
      steps := [];
    } else {
      var before := FillStore(l, k - 1);
      hide Next, Counted, Measuring, Reservation, Repeat;
      var s := Store(Repeat(k - 1, Fresh(l)), None);
      var t := Measuring(l, k - 1, k - 1);
      LockStep(l, k - 1);
      AdmitStep(l, k - 1);
      var measure := MeasureAll(l, 0, k - 1);
      AfterOne(l, s, Lock);
      AfterOne(l, t, Admit(true, l.leastSummary));
      AfterAppend(l, EMPTY, before, [Lock]);
      AfterAppend(l, EMPTY, before + [Lock], measure);
      AfterAppend(l, EMPTY, before + [Lock] + measure, [Admit(true, l.leastSummary)]);
      steps := before + [Lock] + measure + [Admit(true, l.leastSummary)];
    }
  }

  /** k sessions, of which the first i were counted with their first summaries alone and have
      since become full and finished. */
  function Racing(l: Limits, i: nat, k: nat): Store
    requires i <= k
  {
    Store(Repeat(i, Full(l, false)) + Repeat(k - i, Fresh(l)),
          Some(Scan(Repeat<Option<nat>>(i, Some(l.leastSummary)) + Repeat(k - i, None), None)))
  }

  lemma RaceOne(l: Limits, i: nat, k: nat) returns (steps: seq<Step>)
    requires i < k && l.leastSummary <= l.summaryBytes
    ensures After(l, Racing(l, i, k), steps) == Some(Racing(l, i + 1, k))
  {
    var s := Racing(l, i, k);
    var a := Next(l, s, Stat(i, l.leastSummary)).value;
    var b := Next(l, a, Write(i, Reservation(l))).value;
    var c := Next(l, b, Finish(i)).value;
    var d := Next(l, c, TryLock(i)).value;
    assert d.sessions == Racing(l, i + 1, k).sessions;
    assert d.scan.value.counted == Racing(l, i + 1, k).scan.value.counted;
    AfterOne(l, s, Stat(i, l.leastSummary));
    AfterOne(l, a, Write(i, Reservation(l)));
    AfterOne(l, b, Finish(i));
    AfterOne(l, c, TryLock(i));
    AfterAppend(l, s, [Stat(i, l.leastSummary)], [Write(i, Reservation(l))]);
    AfterAppend(l, s, [Stat(i, l.leastSummary)] + [Write(i, Reservation(l))], [Finish(i)]);
    AfterAppend(l, s, [Stat(i, l.leastSummary)] + [Write(i, Reservation(l))] + [Finish(i)], [TryLock(i)]);
    steps := [Stat(i, l.leastSummary)] + [Write(i, Reservation(l))] + [Finish(i)] + [TryLock(i)];
  }

  lemma {:induction false} RaceAll(l: Limits, i: nat, k: nat) returns (steps: seq<Step>)
    requires i <= k && l.leastSummary <= l.summaryBytes
    ensures After(l, Racing(l, i, k), steps) == Some(Racing(l, k, k))
    decreases k - i
  {
    if i == k {
      steps := [];
    } else {
      var one := RaceOne(l, i, k);
      var rest := RaceAll(l, i + 1, k);
      AfterAppend(l, Racing(l, i, k), one, rest);
      steps := one + rest;
    }
  }

  lemma {:induction false} HeldFull(l: Limits, k: nat)
    ensures Held(Repeat(k, Full(l, false))) == Reservations(l, k)
  {
    if k > 0 {
      HeldFull(l, k - 1);
      assert Repeat(k, Full(l, false))[..k - 1] == Repeat(k - 1, Full(l, false));
    }
  }

  /** Sessions counted with their first summaries alone leave room for one session more. */
  lemma OneMoreFits(l: Limits, k: nat)
    requires 1 <= k && Reservations(l, k) <= l.storeBytes && !Crowded(l)
    ensures k * l.leastSummary + Reservation(l) <= l.storeBytes
  {
    if k > 1 {
      LeastWithin(l, k);
    }
  }

  lemma {:induction false} LeastWithin(l: Limits, k: nat)
    requires 2 <= k && l.leastSummary <= l.summaryBytes
    ensures k * l.leastSummary <= Reservations(l, k - 1)
  {
    if k > 2 {
      LeastWithin(l, k - 1);
      assert k * l.leastSummary == (k - 1) * l.leastSummary + l.leastSummary;
    } else {
      assert Reservations(l, 1) == Reservations(l, 0) + Reservation(l);
    }
  }

  /** Sessions that fill up and finish between the reading of their sizes and the trial of
      their locks are counted at their old sizes, and one session too many is admitted. */
  lemma Overfill(l: Limits, k: nat) returns (steps: seq<Step>)
    requires 1 <= k < l.sessions && !Crowded(l)
    requires Reservations(l, k) <= l.storeBytes < Reservations(l, k + 1)
    ensures After(l, EMPTY, steps).Some?
    ensures Held(After(l, EMPTY, steps).value.sessions) == Reservations(l, k + 1) > l.storeBytes
  {
    hide Held, Reservations, Counted, Next;
    var fill := FillStore(l, k);
    var s := Store(Repeat(k, Fresh(l)), None);
    OneMoreFits(l, k);
    var race := RaceAll(l, 0, k);
    var last := OverfillLast(l, k);
    AfterAppend(l, EMPTY, fill, [Lock]);
    AfterAppend(l, EMPTY, fill + [Lock], race);
    AfterAppend(l, EMPTY, fill + [Lock] + race, last);
    steps := fill + [Lock] + race + last;
  }

  lemma OverfillLast(l: Limits, k: nat) returns (last: seq<Step>)
    requires 1 <= k < l.sessions && !Crowded(l) && k * l.leastSummary + Reservation(l) <= l.storeBytes
    ensures After(l, Store(Repeat(k, Fresh(l)), None), [Lock]) == Some(Racing(l, 0, k))
    ensures After(l, Racing(l, k, k), last).Some?
    ensures Held(After(l, Racing(l, k, k), last).value.sessions) == Reservations(l, k + 1)
  {
    hide Next, Counted, Racing, Reservation, Repeat, Held;
    AfterOne(l, Store(Repeat(k, Fresh(l)), None), Lock);
    RaceLock(l, k);
    var u, w := OverfillAdmit(l, k);
    AfterOne(l, Racing(l, k, k), Admit(true, l.leastSummary));
    AfterOne(l, u, Write(k, Reservation(l)));
    AfterAppend(l, Racing(l, k, k), [Admit(true, l.leastSummary)], [Write(k, Reservation(l))]);
    last := [Admit(true, l.leastSummary)] + [Write(k, Reservation(l))];
  }

  lemma RaceLock(l: Limits, k: nat)
    ensures Next(l, Store(Repeat(k, Fresh(l)), None), Lock) == Some(Racing(l, 0, k))
  {
    var s := Store(Repeat(k, Fresh(l)), None);
    assert Next(l, s, Lock).value.scan.value.counted == Racing(l, 0, k).scan.value.counted;
    assert s.sessions == Racing(l, 0, k).sessions;
  }

  lemma OverfillAdmit(l: Limits, k: nat) returns (u: Store, w: Store)
    requires 1 <= k < l.sessions && !Crowded(l) && k * l.leastSummary + Reservation(l) <= l.storeBytes
    ensures Next(l, Racing(l, k, k), Admit(true, l.leastSummary)) == Some(u)
    ensures Next(l, u, Write(k, Reservation(l))) == Some(w)
    ensures Held(w.sessions) == Reservations(l, k + 1)
  {
    hide Repeat;
    var full := Repeat(k, Full(l, false));
    var t := Racing(l, k, k);
    assert Repeat(0, Fresh(l)) == [] && Repeat<Option<nat>>(0, None) == [];
    assert t.sessions == full;
    assert t.scan.value.counted == Repeat<Option<nat>>(k, Some(l.leastSummary));
    assert AllCounted(t.scan.value.counted);
    CountedRepeat(k, l.leastSummary);
    u := Store(full + [Fresh(l)], None);
    assert t.scan.Some? && t.scan.value.seen.None?;
    assert !StoreFull(l, |t.sessions|);
    assert Next(l, t, Admit(true, l.leastSummary)) == Some(u);
    w := Store(full + [Full(l, true)], None);
    assert u.sessions[k := Full(l, true)] == w.sessions;
    HeldFull(l, k);
    assert w.sessions[..k] == full;
  }

  /** How many full reservations fit into the quota. */
  lemma {:induction false} Fitting(l: Limits, n: nat) returns (k: nat)
    requires Reservations(l, 1) <= l.storeBytes < Reservations(l, n)
    ensures 1 <= k < n && Reservations(l, k) <= l.storeBytes < Reservations(l, k + 1)
  {
    if Reservations(l, n - 1) <= l.storeBytes {
      k := n - 1;
    } else {
      k := Fitting(l, n - 1);
    }
  }

  /** Over all schedules, the store keeps within its quota exactly when the limit on sessions
      alone already guarantees it, or when no start fits behind a session that grows. */
  lemma QuotaExactly(l: Limits)
    ensures (forall steps: seq<Step> :: After(l, EMPTY, steps).Some? ==>
               Held(After(l, EMPTY, steps).value.sessions) <= l.storeBytes)
            <==> AtLeastOne(l.sessions) * Reservation(l) <= l.storeBytes || Crowded(l)
  {
    hide Held, Reservations, Next, Crowded;
    var m := AtLeastOne(l.sessions);
    ReservationsIsProduct(l, m);
    if Crowded(l) {
      forall steps: seq<Step> | After(l, EMPTY, steps).Some?
        ensures Held(After(l, EMPTY, steps).value.sessions) <= l.storeBytes
      {
        CrowdedKeepsQuota(l, steps);
      }
    } else if Reservations(l, m) <= l.storeBytes {
      forall steps: seq<Step> | After(l, EMPTY, steps).Some?
        ensures Held(After(l, EMPTY, steps).value.sessions) <= l.storeBytes
      {
        AlwaysSane(l, steps);
        var sessions := After(l, EMPTY, steps).value.sessions;
        HeldAtMost(l, sessions);
        ReservationsGrow(l, |sessions|, m);
      }
    } else {
      var k := Room(l, m);
      var steps := Overfill(l, k);
      assert Held(After(l, EMPTY, steps).value.sessions) > l.storeBytes;
    }
  }

  lemma Room(l: Limits, m: nat) returns (k: nat)
    requires !Crowded(l) && l.storeBytes < Reservations(l, m)
    ensures 1 <= k < m && Reservations(l, k) <= l.storeBytes < Reservations(l, k + 1)
  {
    assert Reservations(l, 1) == Reservations(l, 0) + Reservation(l);
    k := Fitting(l, m);
  }

  /** With the limits the installer ships, the race can exceed the quota, whatever the least
      size of a summary is. */
  lemma ShippedLimitsCanOverfill(least: nat)
    requires least <= 8192
    ensures var l := Limits(4194304, 8192, 32, 67108864, least);
            exists steps: seq<Step> :: After(l, EMPTY, steps).Some?
                       && Held(After(l, EMPTY, steps).value.sessions) > l.storeBytes
  {
    QuotaExactly(Limits(4194304, 8192, 32, 67108864, least));
  }
}
