/** A disk with a volatile write cache, whose every step may fail.

    Nondeterministic choices in the bodies stand for the kernel and the device: a read
    may raise or come back short, a write may store any prefix and raise, a flush may
    fail.  What survives a crash is any mixture, byte by byte, of the durable contents
    and the writes that were not flushed.
 */
module Disk {
  import opened Bytes
  import opened Images

  /** Bytes accepted by the kernel but not known to be durable. */
  datatype Pending = Pending(offset: nat, data: Bytes) {
    predicate Covers(i: int) {
      offset <= i < offset + |data|
    }
  }

  datatype Event =
    | Read(offset: int, data: Bytes)
    | Write(offset: int, data: Bytes, stored: nat)
    | Flush(done: bool)
    | Guard(granted: bool)

  datatype DiskState = DiskState(durable: Bytes, pending: seq<Pending>)

  predicate Fits(size: nat, pending: seq<Pending>) {
    forall w :: w in pending ==> w.offset + |w.data| <= size
  }

  /** The contents every reader sees: later writes over earlier ones. */
  function Overlay(durable: Bytes, pending: seq<Pending>): (r: Bytes)
    requires Fits(|durable|, pending)
    ensures |r| == |durable|
  {
    if pending == [] then durable
    else
      var last := pending[|pending| - 1];
      Splice(Overlay(durable, pending[..|pending| - 1]), last.offset, last.data)
  }

  /** Byte i may have this value after a crash. */
  ghost predicate MayPersist(st: DiskState, i: int, value: int)
    requires 0 <= i < |st.durable|
  {
    value == st.durable[i] || exists w :: w in st.pending && w.Covers(i) && value == w.data[i - w.offset]
  }

  /** One of the possible disk contents after a crash. */
  ghost predicate CrashImage(st: DiskState, img: Bytes) {
    |img| == |st.durable| && forall i :: 0 <= i < |img| ==> MayPersist(st, i, img[i])
  }

  /** No unflushed write touches the region. */
  ghost predicate Quiet(st: DiskState, span: Span) {
    forall w :: w in st.pending ==> span.Apart(Span(w.offset, |w.data|))
  }

  /** A quiet region survives every crash as it is. */
  lemma QuietSurvives(st: DiskState, img: Bytes, span: Span)
    requires CrashImage(st, img) && Quiet(st, span)
    requires 0 <= span.offset && 0 <= span.length && span.offset + span.length <= |img|
    ensures At(img, span) == At(st.durable, span)
  {
  }

  /** The current contents are one of the crash outcomes. */
  lemma {:induction false} ViewIsCrashImage(durable: Bytes, pending: seq<Pending>)
    requires Fits(|durable|, pending)
    ensures CrashImage(DiskState(durable, pending), Overlay(durable, pending))
  {
    if pending != [] {
      var before := pending[..|pending| - 1];
      var last := pending[|pending| - 1];
      ViewIsCrashImage(durable, before);
      var st, prior := DiskState(durable, pending), DiskState(durable, before);
      var img := Overlay(durable, pending);
      forall i | 0 <= i < |img| ensures MayPersist(st, i, img[i]) {
        if last.Covers(i) {
          assert last in pending;
        } else {
          assert MayPersist(prior, i, Overlay(durable, before)[i]);
        }
      }
    }
  }

  class BlockDevice {
    const size: nat
    /** No other writer: then reads return what the disk holds. */
    const exclusive: bool
    var durable: Bytes
    var pending: seq<Pending>
    /** Every event, and those that can change the disk. */
    ghost var trace: seq<Event>
    ghost var journal: seq<Event>
    /** Every state the disk has been in. */
    ghost var states: seq<DiskState>
    /** How many calls raised, were refused, came back short or stored less than asked. */
    ghost var faults: nat

    ghost predicate Valid()
      reads this
    {
      && |durable| == size && Fits(size, pending)
      && |states| > 0 && states[|states| - 1] == DiskState(durable, pending)
    }

    ghost function View(): Bytes
      requires Valid()
      reads this
    {
      Overlay(durable, pending)
    }

    /** The disk is as it was; only the trace may have grown. */
    twostate predicate SameDisk()
      reads this
    {
      durable == old(durable) && pending == old(pending) && states == old(states) && journal == old(journal)
    }

    constructor (contents: Bytes, exclusive: bool)
      ensures Valid() && size == |contents| && this.exclusive == exclusive
      ensures durable == contents && pending == [] && trace == [] && journal == []
      ensures states == [DiskState(contents, [])] && faults == 0
    {
      size, this.exclusive := |contents|, exclusive;
      durable, pending, trace, journal := contents, [], [], [];
      states, faults := [DiskState(contents, [])], 0;
    }

    /** `os.pread`: raises, or returns bytes; under exclusion the true ones, possibly fewer. */
    method Pread(offset: int, length: int) returns (r: Option<Bytes>)
      requires Valid() && 0 <= offset && 0 <= length && offset + length <= size
      modifies this`trace, this`faults
      ensures Valid() && SameDisk()
      ensures faults == old(faults) + (if r.Some? && |r.value| == length then 0 else 1)
      ensures r.None? ==> trace == old(trace)
      ensures r.Some? ==> trace == old(trace) + [Read(offset, r.value)]
      ensures r.Some? && exclusive ==> r.value <= View()[offset..offset + length]
      ensures exclusive && faults == old(faults) ==> r == Some(View()[offset..offset + length])
    {
      if * {
        faults := faults + 1;
        return None;
      }
      var data: Bytes := *;
      if exclusive {
        var seen := CurrentBytes(offset, length);
        var got :| 0 <= got <= |seen|;
        data := seen[..got];
        assert seen[..|seen|] == seen;
      }
      trace := trace + [Read(offset, data)];
      faults := if |data| == length then faults else faults + 1;
      return Some(data);
    }

    method CurrentBytes(offset: nat, length: nat) returns (r: Bytes)
      requires Valid() && offset + length <= size
      ensures r == View()[offset..offset + length]
    {
      r := Overlay(durable, pending)[offset..offset + length];
    }

    /** `os.pwrite`: any prefix reaches the cache; then it returns the count, or raises. */
    method Pwrite(offset: int, data: Bytes) returns (count: Option<int>)
      requires Valid() && 0 <= offset && offset + |data| <= size
      modifies this`pending, this`trace, this`journal, this`states, this`faults
      ensures Valid()
      ensures faults == old(faults) + (if count == Some(|data|) then 0 else 1)
      ensures exists stored: nat :: stored <= |data| && (count.Some? ==> count.value == stored)
                && trace == old(trace) + [Write(offset, data, stored)]
                && journal == old(journal) + [Write(offset, data, stored)]
                && pending == old(pending) + [Pending(offset, data[..stored])]
                && states == old(states) + [DiskState(durable, pending)]
    {
      var stored :| 0 <= stored <= |data|;
      pending := pending + [Pending(offset, data[..stored])];
      trace := trace + [Write(offset, data, stored)];
      journal := journal + [Write(offset, data, stored)];
      states := states + [DiskState(durable, pending)];
      if * {
        faults := faults + 1;
        return None;
      }
      faults := if stored == |data| then faults else faults + 1;
      return Some(stored);
    }

    /** `os.fsync`: everything becomes durable, or it raises and nothing is known. */
    method Fsync() returns (done: bool)
      requires Valid()
      modifies this`durable, this`pending, this`trace, this`journal, this`states, this`faults
      ensures Valid()
      ensures faults == old(faults) + (if done then 0 else 1)
      ensures trace == old(trace) + [Flush(done)] && journal == old(journal) + [Flush(done)]
      ensures states == old(states) + [DiskState(durable, pending)]
      ensures done ==> durable == old(View()) && pending == []
      ensures !done ==> durable == old(durable) && pending == old(pending)
    {
      done := *;
      if done {
        durable, pending := Overlay(durable, pending), [];
      }
      trace := trace + [Flush(done)];
      journal := journal + [Flush(done)];
      states := states + [DiskState(durable, pending)];
      faults := if done then faults else faults + 1;
    }

    /** The source guard: grants, refuses, or raises (None). */
    method CheckGuard() returns (granted: Option<bool>)
      requires Valid()
      modifies this`trace, this`faults
      ensures Valid() && SameDisk()
      ensures faults == old(faults) + (if granted == Some(true) then 0 else 1)
      ensures trace == old(trace) + [Guard(granted == Some(true))]
    {
      granted := *;
      trace := trace + [Guard(granted == Some(true))];
      faults := if granted == Some(true) then faults else faults + 1;
    }
  }
}
