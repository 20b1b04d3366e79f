/** The operating system as the worker sees it: descriptors, the native resize child
    and the kernel's partition table.  Any call may fail. */
module Machine {
  import opened Bytes
  import opened Disk
  import opened Outcome

  /** Irreversible steps, each with the length of the disk journal at that moment; the re-read also
      with the length of the trace and the source descriptors then held. */
  datatype Step =
    | Spawned(at: nat)
    | ExitedAlone(at: nat)
    | Synced(at: nat)
    | Inspected(at: nat)
    | Reread(at: nat, seen: nat, held: set<int>)

  /** The steps that must all lie before the first table write. */
  function NativeSteps(at: nat): seq<Step> {
    [Spawned(at), ExitedAlone(at), Synced(at)]
  }

  function StepsBeforeTable(at: nat): seq<Step> {
    NativeSteps(at) + [Inspected(at)]
  }

  /** Private evidence carried from the resize to the kernel phase. */
  datatype Filesystem = Filesystem(volumeBytes: int, clusterBytes: int, minimumBytes: int, targetBytes: int)

  /** A comparison of the kernel's partition layout with the table: its outcome, and how much of the
      disk's trace there was. */
  datatype Poll = Poll(agreed: bool, seen: nat)

  /** What a file is opened for. */
  datatype Use = Anchor | Inhibitor | WholeDisk | Source

  /** What has failed so far, on the host, at closing and on the disk, and what has been recorded. */
  datatype Tally = Tally(faults: nat, failures: nat, diskFaults: nat, polls: seq<Poll>, figures: seq<Filesystem>,
                         tried: seq<Use>)
  {
    /** Nothing has failed since. */
    predicate CalmSince(before: Tally) {
      faults == before.faults && failures == before.failures && diskFaults == before.diskFaults
    }

    /** Failures only add up, and records only grow. */
    predicate Follows(before: Tally) {
      && before.faults <= faults && before.failures <= failures && before.diskFaults <= diskFaults
      && before.polls <= polls && before.figures <= figures && before.tried <= tried
    }
  }

  /** How every run of a transaction object ended, in order. */
  class Runs {
    ghost var ended: seq<RunResult>

    constructor ()
      ensures ended == []
    {
      ended := [];
    }
  }

  class Host {
    const disk: BlockDevice
    /** Whether closing a descriptor works. Numbers are not used again, so each stands for one
        descriptor of the run. */
    const closes: int -> bool
    const runs: Runs
    /** The next descriptor. */
    var next: int
    /** Open descriptors, and those among them that hold the source partition. */
    ghost var open: set<int>
    ghost var sources: set<int>
    ghost var log: seq<Step>
    /** How many closes have reported an error. */
    ghost var failures: nat
    /** How many other calls were refused, raised or ran out of time. */
    ghost var faults: nat
    /** What each comparison with the kernel's layout and each inspection of the file system said. */
    ghost var polls: seq<Poll>
    ghost var figures: seq<Filesystem>
    /** What was opened, or tried to be. */
    ghost var tried: seq<Use>

    ghost predicate Valid()
      reads this, disk
    {
      && disk.Valid()
      && sources <= open && 3 <= next
      && forall fd :: fd in open ==> 3 <= fd < next
    }

    ghost function Count(): Tally
      reads this, disk
    {
      Tally(faults, failures, disk.faults, polls, figures, tried)
    }

    twostate predicate Calm()
      reads this, disk
    {
      Count().CalmSince(old(Count()))
    }

    twostate predicate Onward()
      reads this, disk
    {
      Count().Follows(old(Count()))
    }

    constructor (disk: BlockDevice, closes: int -> bool)
      requires disk.Valid()
      ensures Valid() && this.disk == disk && this.closes == closes && next == 3
      ensures open == {} && sources == {} && log == [] && fresh(runs) && runs.ended == []
      ensures failures == faults == 0 && polls == [] && figures == [] && tried == []
    {
      this.disk, this.closes, next, open, sources, log, failures := disk, closes, 3, {}, {}, [], 0;
      faults, polls, figures, tried := 0, [], [], [];
      runs := new Runs();
    }

    /** `os.open`: a new descriptor, or it raises. */
    method Open(use: Use) returns (fd: Option<int>)
      requires Valid()
      modifies this`next, this`open, this`sources, this`faults, this`tried
      ensures tried == old(tried) + [use]
      ensures Valid() && faults == old(faults) + (if fd.Some? then 0 else 1)
      ensures fd.None? ==> next == old(next) && open == old(open) && sources == old(sources)
      ensures fd.Some? ==> fd.value == old(next) && next == old(next) + 1
      ensures fd.Some? ==> fd.value !in old(open) && open == old(open) + {fd.value}
                           && sources == old(sources) + (if use.Source? then {fd.value} else {})
    {
      tried := tried + [use];
      if * {
        faults := faults + 1;
        return None;
      }
      fd := Some(next);
      open := open + {next};
      if use.Source? {
        sources := sources + {next};
      }
      next := next + 1;
    }

    /** `fcntl(F_DUPFD_CLOEXEC)`: a second descriptor for the same file, or it raises. */
    method Dup(fd: int) returns (copy: Option<int>)
      requires Valid() && fd in open
      modifies this`next, this`open, this`sources, this`faults
      ensures Valid() && faults == old(faults) + (if copy.Some? then 0 else 1)
      ensures copy.None? ==> next == old(next) && open == old(open) && sources == old(sources)
      ensures copy.Some? ==> copy.value == old(next) && next == old(next) + 1
      ensures copy.Some? ==> copy.value !in old(open) && open == old(open) + {copy.value}
                             && sources == old(sources) + (if fd in old(sources) then {copy.value} else {})
    {
      if * {
        faults := faults + 1;
        return None;
      }
      copy := Some(next);
      open := open + {next};
      if fd in sources {
        sources := sources + {next};
      }
      next := next + 1;
    }

    /** `os.close`: the descriptor is gone whether or not an error is reported.
        Closing one that is not open is not allowed at all. */
    method Close(fd: int) returns (ok: bool)
      requires Valid() && fd in open
      modifies this`open, this`sources, this`failures
      ensures Valid() && open == old(open) - {fd} && sources == old(sources) - {fd}
      ensures ok == closes(fd) && failures == if ok then old(failures) else old(failures) + 1
    {
      open, sources := open - {fd}, sources - {fd};
      ok := closes(fd);
      failures := if ok then failures else failures + 1;
    }

    /** Any check without lasting effect: it holds, or it is refused or raises. */
    method Check() returns (ok: bool)
      requires Valid()
      modifies this`faults
      ensures Valid() && faults == old(faults) + (if ok then 0 else 1)
    {
      ok := *;
      faults := if ok then faults else faults + 1;
    }

    /** `verify_kernel_layout`: whether the kernel shows the table's partitions. Where a disagreement
        is tolerated it is not a failure. */
    method KernelLayout(tolerated: bool) returns (agreed: bool)
      requires Valid()
      modifies this`faults, this`polls
      ensures Valid() && polls == old(polls) + [Poll(agreed, |disk.trace|)]
      ensures faults == old(faults) + (if agreed || tolerated then 0 else 1)
    {
      agreed := *;
      polls := polls + [Poll(agreed, |disk.trace|)];
      faults := if agreed || tolerated then faults else faults + 1;
    }

    /** The clock, against a deadline so many polls away. */
    method DeadlinePassed(turns: nat) returns (passed: bool)
      requires Valid()
      modifies this`faults
      ensures Valid() && passed == (turns == 0) && faults == old(faults) + (if passed then 1 else 0)
    {
      passed := turns == 0;
      faults := if passed then faults + 1 else faults;
    }

    /** `subprocess.Popen` of the native resizer. */
    method Spawn() returns (ok: bool)
      requires Valid()
      modifies this`log, this`faults
      ensures Valid() && log == if ok then old(log) + [Spawned(|disk.journal|)] else old(log)
      ensures faults == old(faults) + (if ok then 0 else 1)
    {
      ok := *;
      faults := if ok then faults else faults + 1;
      if ok {
        log := log + [Spawned(|disk.journal|)];
      }
    }

    /** The child exited with status 0 and left no other process in its group. */
    method AwaitAlone() returns (ok: bool)
      requires Valid()
      modifies this`log, this`faults
      ensures Valid() && log == if ok then old(log) + [ExitedAlone(|disk.journal|)] else old(log)
      ensures faults == old(faults) + (if ok then 0 else 1)
    {
      ok := *;
      faults := if ok then faults else faults + 1;
      if ok {
        log := log + [ExitedAlone(|disk.journal|)];
      }
    }

    /** `os.fsync` of the source. */
    method SyncSource() returns (ok: bool)
      requires Valid()
      modifies this`log, this`faults
      ensures Valid() && log == if ok then old(log) + [Synced(|disk.journal|)] else old(log)
      ensures faults == old(faults) + (if ok then 0 else 1)
    {
      ok := *;
      faults := if ok then faults else faults + 1;
      if ok {
        log := log + [Synced(|disk.journal|)];
      }
    }

    /** `inspect_resized_fd`: the figures of a resized file system that passed, or it raises. */
    method Inspect() returns (found: Option<Filesystem>)
      requires Valid()
      modifies this`faults, this`figures
      ensures Valid() && faults == old(faults) + (if found.Some? then 0 else 1)
      ensures figures == if found.Some? then old(figures) + [found.value] else old(figures)
    {
      if * {
        faults := faults + 1;
        return None;
      }
      var volume, cluster, minimum, target: int := *, *, *, *;
      found := Some(Filesystem.Filesystem(volume, cluster, minimum, target));
      figures := figures + [found.value];
    }

    /** The inspection right after the resize is one of the steps. */
    method InspectResized() returns (found: Option<Filesystem>)
      requires Valid()
      modifies this`log, this`faults, this`figures
      ensures Valid() && log == if found.Some? then old(log) + [Inspected(|disk.journal|)] else old(log)
      ensures faults == old(faults) + (if found.Some? then 0 else 1)
      ensures figures == if found.Some? then old(figures) + [found.value] else old(figures)
    {
      found := Inspect();
      if found.Some? {
        log := log + [Inspected(|disk.journal|)];
      }
    }

    /** BLKRRPART: counted as soon as it is attempted. */
    method RereadTable() returns (ok: bool)
      requires Valid()
      modifies this`log, this`faults
      ensures Valid() && log == old(log) + [Reread(|disk.journal|, |disk.trace|, sources)]
      ensures faults == old(faults) + (if ok then 0 else 1)
    {
      log := log + [Reread(|disk.journal|, |disk.trace|, sources)];
      ok := *;
      faults := if ok then faults else faults + 1;
    }
  }

  /** What can be seen of a host: its steps, its disk with all that happened to it, the runs and the
      failures. */
  datatype Moment = Moment(log: seq<Step>, journal: seq<Event>, trace: seq<Event>, states: seq<DiskState>,
                           now: DiskState, ended: seq<RunResult>, tally: Tally)

  ghost function Seen(host: Host): Moment
    reads host, host.disk, host.runs
  {
    Moment(host.log, host.disk.journal, host.disk.trace, host.disk.states,
           DiskState(host.disk.durable, host.disk.pending), host.runs.ended, host.Count())
  }

  predicate Grew(m: Moment, n: Moment) {
    m.log <= n.log && m.journal <= n.journal && m.trace <= n.trace
  }

  datatype NativeResult = NativeDone | NativeFailed(started: bool, cleanupFailed: bool)

  /** The part of the runner that may raise: a duplicate of the source, then the child. */
  method StartNative(host: Host, fd: int) returns (owned: Option<int>, started: bool, failed: bool)
    requires host.Valid() && fd in host.open
    modifies host
    ensures host.Valid() && host.failures == old(host.failures)
    ensures host.Onward() && host.disk.faults == old(host.disk.faults)
    ensures host.polls == old(host.polls) && host.figures == old(host.figures) && host.tried == old(host.tried)
    ensures failed <==> host.faults > old(host.faults)
    ensures owned.None? ==> host.open == old(host.open) && host.sources == old(host.sources)
    ensures owned.Some? ==> owned.value !in old(host.open) && host.open == old(host.open) + {owned.value}
                            && old(host.sources) == host.sources - {owned.value}
    ensures old(host.log) <= host.log && host.log[|old(host.log)|..] <= NativeSteps(|host.disk.journal|)[..2]
    ensures started <==> host.log != old(host.log)
    ensures !failed ==> owned.Some? && host.log == old(host.log) + NativeSteps(|host.disk.journal|)[..2]
  {
    ghost var log0 := host.log;
    owned, started, failed := None, false, true;
    assert host.log == log0 + [];
    var admitted := host.Check();
    if !admitted {
      return;
    }
    owned := host.Dup(fd);
    if owned.None? {
      return;
    }
    admitted := host.Check();
    if !admitted {
      return;
    }
    started := host.Spawn();
    if !started {
      return;
    }
    assert host.log == log0 + NativeSteps(|host.disk.journal|)[..1];
    var drained := host.Check();
    if !drained {
      return;
    }
    var alone := host.AwaitAlone();
    if alone {
      failed := false;
      assert host.log == log0 + NativeSteps(|host.disk.journal|)[..2];
    }
  }

  /** `run_native_resize`: success only for a child that exited alone and a synced source;
      the error says exactly whether a child was started and hides no failing close; no
      descriptor is left behind. */
  method RunNativeResize(host: Host, fd: int) returns (r: NativeResult)
    requires host.Valid() && fd in host.open
    modifies host
    ensures host.Valid() && host.open == old(host.open) && host.sources == old(host.sources)
    ensures host.Onward() && host.polls == old(host.polls) && host.figures == old(host.figures)
    ensures r.NativeDone? <==> host.Calm()
    ensures old(host.log) <= host.log
    ensures r.NativeDone? ==> host.log == old(host.log) + NativeSteps(|host.disk.journal|)
    ensures host.log[|old(host.log)|..] <= NativeSteps(|host.disk.journal|)
    ensures r.NativeFailed? ==> (r.started <==> host.log != old(host.log))
    ensures host.failures != old(host.failures) ==> r.NativeFailed? && r.cleanupFailed
  {
    ghost var log0 := host.log;
    var cleanupFailed := false;
    var owned, started, failed := StartNative(host, fd);
    if started {
      var emptied := host.Check();
      var reaped := host.Check();
      var streams := host.Check();
      cleanupFailed := !emptied || !reaped || !streams;
    }
    if cleanupFailed {
      failed := true;
    }
    if !failed {
      var synced := host.SyncSource();
      failed := !synced;
      assert synced ==> host.log == log0 + NativeSteps(|host.disk.journal|);
    }
    if owned.Some? {
      var closed := host.Close(owned.value);
      if !closed {
        cleanupFailed, failed := true, true;
      }
    }
    r := if failed then NativeFailed(started, cleanupFailed) else NativeDone;
  }
}
