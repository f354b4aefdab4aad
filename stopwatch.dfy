/**
 * A lap stopwatch: start and lap instants (in nanoseconds) are recorded as
 * they happen, and lap times (in milliseconds) are computed from them on
 * demand. The instants are passed in by the caller, who reads them from a
 * clock that never goes backwards.
 */
module Stopwatches {
  import opened Java

  const NANOS_PER_MILLI: int := 1_000_000

  /** `getTimeSpanInMilliseconds`: `(end - start) / 1000000` with Java's truncating division. */
  function TimeSpanInMilliseconds(startNano: int, endNano: int): int
  {
    TruncDiv(endNano - startNano, NANOS_PER_MILLI)
  }

  /**
   * A forward span is rounded down to whole milliseconds, and a backward one
   * never gives a positive value.
   */
  lemma TimeSpanBounds(startNano: int, endNano: int)
    ensures var ms := TimeSpanInMilliseconds(startNano, endNano);
      && (startNano <= endNano ==>
        0 <= ms && ms * NANOS_PER_MILLI <= endNano - startNano < (ms + 1) * NANOS_PER_MILLI)
      && (endNano < startNano ==> ms <= 0)
  {
  }

  /** Non-decreasing. */
  predicate Sorted(s: seq<int>)
  {
    forall i, j :: 0 <= i < j < |s| ==> s[i] <= s[j]
  }

  /** Appending a value no smaller than any element keeps a sequence sorted. */
  lemma SortedAppend(s: seq<int>, x: int)
    requires Sorted(s)
    requires forall k :: 0 <= k < |s| ==> s[k] <= x
    ensures Sorted(s + [x])
  {
    forall i, j | 0 <= i < j < |s| + 1 ensures (s + [x])[i] <= (s + [x])[j] {
      assert (s + [x])[i] == s[i];
    }
  }

  /**
   * The lap times still to compute in `getLapTimes`'s loop: `next` is the
   * index of the first start instant not yet used, `start` the beginning of
   * the current lap and `ends` the lap instants still to visit. A lap begins
   * at the previous lap instant, unless the next unused start instant falls
   * in (previous, end], in which case it begins there and that start
   * instant is used up.
   */
  function SpansFrom(starts: seq<int>, next: nat, start: int, ends: seq<int>): (r: seq<int>)
    ensures |r| == |ends|
    decreases |ends|
  {
    if ends == [] then []
    else
      var end := ends[0];
      var resumes := next < |starts| && start < starts[next] <= end;
      var from := if resumes then starts[next] else start;
      [TimeSpanInMilliseconds(from, end)] + SpansFrom(starts, if resumes then next + 1 else next, end, ends[1..])
  }

  /** The first lap time still to compute, and what follows it. */
  lemma SpansStep(starts: seq<int>, next: nat, start: int, ends: seq<int>)
    requires ends != []
    ensures var resumes := next < |starts| && start < starts[next] <= ends[0];
      SpansFrom(starts, next, start, ends) ==
        [TimeSpanInMilliseconds(if resumes then starts[next] else start, ends[0])]
        + SpansFrom(starts, if resumes then next + 1 else next, ends[0], ends[1..])
  {
  }

  /**
   * `getLapTimes` on sorted lap instants: one value per lap instant; the
   * first lap is measured from the first start instant. With no start
   * instant the lap instants are returned as they are.
   */
  function LapTimes(starts: seq<int>, laps: seq<int>): (r: seq<int>)
    ensures |r| == |laps|
  {
    if starts == [] then laps else SpansFrom(starts, 1, starts[0], laps)
  }

  /**
   * With the lap instants in order and the first lap instant not before the
   * lap's start, no lap time is negative.
   */
  lemma {:induction false} SpansNonNegative(starts: seq<int>, next: nat, start: int, ends: seq<int>)
    requires Sorted(ends)
    requires ends != [] ==> start <= ends[0]
    ensures forall k :: 0 <= k < |ends| ==> SpansFrom(starts, next, start, ends)[k] >= 0
    decreases |ends|
  {
    if ends != [] {
      var resumes := next < |starts| && start < starts[next] <= ends[0];
      SpansNonNegative(starts, if resumes then next + 1 else next, ends[0], ends[1..]);
      var r := SpansFrom(starts, next, start, ends);
      forall k | 0 <= k < |ends| ensures r[k] >= 0 {
        if k > 0 {
          assert r[k] == SpansFrom(starts, if resumes then next + 1 else next, ends[0], ends[1..])[k - 1];
        }
      }
    }
  }

  /**
   * Once every start instant is used up, each lap runs from the previous lap
   * instant (the first from `start`) to its own.
   */
  lemma {:induction false} SpansAfterLastStart(starts: seq<int>, next: nat, start: int, ends: seq<int>, k: nat)
    requires next >= |starts|
    requires k < |ends|
    ensures SpansFrom(starts, next, start, ends)[k] ==
      TimeSpanInMilliseconds(if k == 0 then start else ends[k - 1], ends[k])
    decreases k
  {
    if k > 0 {
      SpansAfterLastStart(starts, next, ends[0], ends[1..], k - 1);
    }
  }

  /** A single run: lap `k` spans from lap instant `k - 1` (the start instant for the first) to lap instant `k`. */
  lemma SingleRunLapTimes(s: int, laps: seq<int>, k: nat)
    requires k < |laps|
    ensures LapTimes([s], laps)[k] == TimeSpanInMilliseconds(if k == 0 then s else laps[k - 1], laps[k])
  {
    SpansAfterLastStart([s], 1, s, laps, k);
  }

  /**
   * One turn of `getLapTimes`'s loop: the lap at `i` is measured from `from`
   * (the next start instant when it falls in (start, end], else `start`),
   * its slot in the copy is overwritten, and the laps still to compute start
   * at the lap instant just used.
   */
  lemma LapStep(starts: seq<int>, laps: seq<int>, i: nat, next: nat, start: int, done: seq<int>,
                times: seq<int>, from: int, after: nat)
    requires i < |laps| && |done| == i && times == done + laps[i..]
    requires done + SpansFrom(starts, next, start, laps[i..]) == LapTimes(starts, laps)
    requires var resumes := next < |starts| && start < starts[next] <= times[i];
      from == (if resumes then starts[next] else start) && after == (if resumes then next + 1 else next)
    ensures times[i := TimeSpanInMilliseconds(from, times[i])] ==
      (done + [TimeSpanInMilliseconds(from, times[i])]) + laps[i + 1..]
    ensures (done + [TimeSpanInMilliseconds(from, times[i])]) + SpansFrom(starts, after, times[i], laps[i + 1..])
      == LapTimes(starts, laps)
  {
    var end, rest := laps[i], laps[i + 1..];
    assert laps[i..] == [end] + rest;
    assert times[i] == end;
    LapSpans(starts, next, start, done, end, rest, from, after, LapTimes(starts, laps));
    OverwriteNext(done, end, TimeSpanInMilliseconds(from, end), rest);
  }

  /** The lap at `end` moves from the laps still to compute to the computed ones. */
  lemma LapSpans(starts: seq<int>, next: nat, start: int, done: seq<int>, end: int, rest: seq<int>,
                 from: int, after: nat, total: seq<int>)
    requires done + SpansFrom(starts, next, start, [end] + rest) == total
    requires var resumes := next < |starts| && start < starts[next] <= end;
      from == (if resumes then starts[next] else start) && after == (if resumes then next + 1 else next)
    ensures (done + [TimeSpanInMilliseconds(from, end)]) + SpansFrom(starts, after, end, rest) == total
  {
    var span := TimeSpanInMilliseconds(from, end);
    var later := SpansFrom(starts, after, end, rest);
    SpansStep(starts, next, start, [end] + rest);
    assert ([end] + rest)[0] == end && ([end] + rest)[1..] == rest;
    assert SpansFrom(starts, next, start, [end] + rest) == [span] + later;
    assert done + ([span] + later) == (done + [span]) + later;
  }

  /** Overwriting the slot after a prefix replaces just that slot. */
  lemma OverwriteNext(done: seq<int>, old_: int, new_: int, rest: seq<int>)
    ensures (done + ([old_] + rest))[|done| := new_] == (done + [new_]) + rest
  {
    var a := (done + ([old_] + rest))[|done| := new_];
    var b := (done + [new_]) + rest;
    forall k | 0 <= k < |a| ensures a[k] == b[k] {
      if k < |done| {
        assert a[k] == done[k] == b[k];
      } else if k > |done| {
        assert a[k] == rest[k - |done| - 1] == b[k];
      }
    }
  }

  /**
   * The loop of `getLapTimes`: the copy of the lap instants is overwritten
   * in place, slot by slot, with the lap times.
   */
  method ComputeLapTimes(starts: seq<int>, laps: seq<int>) returns (times: seq<int>)
    ensures times == LapTimes(starts, laps)
  {
    times := laps;
    if starts != [] {
      var start := starts[0];
      var next := 1;
      var i := 0;
      ghost var done: seq<int> := [];
      while i < |times|
        invariant 0 <= i <= |laps| && |done| == i
        invariant 1 <= next <= |starts|
        invariant times == done + laps[i..]
        invariant done + SpansFrom(starts, next, start, laps[i..]) == LapTimes(starts, laps)
      {
        var end := times[i];
        ghost var before, used := start, next;
        if next < |starts| {
          var tmpStart := starts[next];
          if tmpStart > start && tmpStart <= end {
            start := tmpStart;
            next := next + 1;
          }
        }
        LapStep(starts, laps, i, used, before, done, times, start, next);
        var span := TimeSpanInMilliseconds(start, end);
        times := times[i := span];
        done := done + [span];
        start := end;
        i := i + 1;
      }
      assert laps[i..] == [];
    }
  }

  /** `SimpleStopwatch`. */
  class SimpleStopwatch {
    const id: string
    var running: bool
    /** The recorded lap instants (`lap` and `stop`). */
    var lapInstants: seq<int>
    /** The recorded start instants. */
    var startInstants: seq<int>

    /**
     * The id is never empty; a running watch has been started; lap
     * instants come in order and none is before the first start instant.
     */
    ghost predicate Valid()
      reads this
    {
      && id != []
      && (running ==> startInstants != [])
      && Sorted(lapInstants)
      && (lapInstants != [] ==> startInstants != [] && startInstants[0] <= lapInstants[0])
    }

    /** `now` is not earlier than anything recorded: the clock never goes backwards. */
    ghost predicate NotBefore(now: int)
      reads this
    {
      && (forall k :: 0 <= k < |startInstants| ==> startInstants[k] <= now)
      && (forall k :: 0 <= k < |lapInstants| ==> lapInstants[k] <= now)
    }

    /** A new watch is stopped and has recorded nothing. */
    constructor(id: string)
      requires id != []
      ensures Valid() && this.id == id
      ensures !running && lapInstants == [] && startInstants == []
    {
      this.id := id;
      running := false;
      lapInstants := [];
      startInstants := [];
    }

    /** `getId`: never empty. */
    function GetId(): (s: string)
      requires Valid()
      reads this
      ensures s != [] && s == id
    {
      id
    }

    /** `start`: on a running watch, `IllegalStateException`; otherwise the watch runs and the start instant is recorded. */
    method Start(now: int) returns (r: Result<()>)
      requires Valid() && NotBefore(now)
      modifies this
      ensures Valid()
      ensures old(running) ==> (r == Throws(IllegalState) && running
        && startInstants == old(startInstants) && lapInstants == old(lapInstants))
      ensures !old(running) ==> (r == Ok(()) && running
        && startInstants == old(startInstants) + [now] && lapInstants == old(lapInstants))
    {
      if running {
        return Throws(IllegalState);
      }
      running := true;
      startInstants := startInstants + [now];
      return Ok(());
    }

    /** `lap`: on a stopped watch, `IllegalStateException`; otherwise the lap instant is recorded. */
    method Lap(now: int) returns (r: Result<()>)
      requires Valid() && NotBefore(now)
      modifies this
      ensures Valid() && running == old(running) && startInstants == old(startInstants)
      ensures !old(running) ==> r == Throws(IllegalState) && lapInstants == old(lapInstants)
      ensures old(running) ==> r == Ok(()) && lapInstants == old(lapInstants) + [now]
    {
      if !running {
        return Throws(IllegalState);
      }
      SortedAppend(lapInstants, now);
      lapInstants := lapInstants + [now];
      return Ok(());
    }

    /** `stop`: on a stopped watch, `IllegalStateException`; otherwise a final lap instant is recorded and the watch stops. */
    method Stop(now: int) returns (r: Result<()>)
      requires Valid() && NotBefore(now)
      modifies this
      ensures Valid() && startInstants == old(startInstants)
      ensures !old(running) ==> r == Throws(IllegalState) && !running && lapInstants == old(lapInstants)
      ensures old(running) ==> r == Ok(()) && !running && lapInstants == old(lapInstants) + [now]
    {
      if !running {
        return Throws(IllegalState);
      }
      SortedAppend(lapInstants, now);
      lapInstants := lapInstants + [now];
      running := false;
      return Ok(());
    }

    /** `reset`: in any state, forget every instant and stop. */
    method Reset()
      requires Valid()
      modifies this
      ensures Valid() && !running && lapInstants == [] && startInstants == []
    {
      lapInstants := [];
      startInstants := [];
      running := false;
    }

    /**
     * `getLapTimes`: one lap time per recorded lap instant, computed on a
     * copy of the instants; the watch is only read. The sort of the copy
     * leaves it as it is, the lap instants being in order.
     */
    method GetLapTimes() returns (times: seq<int>)
      requires Valid()
      ensures |times| == |lapInstants|
      ensures times == LapTimes(startInstants, lapInstants)
    {
      times := ComputeLapTimes(startInstants, lapInstants);
    }

    /** `equals`: another stopwatch with the same id. */
    predicate Equals(o: Obj<SimpleStopwatch>)
    {
      o.Instance? && o.value.id == id
    }

    /** `hashCode`: `31 + id.hashCode()`, for a given `String.hashCode`. */
    function HashCode(stringHash: string -> int32): int32
    {
      Wrap(31 + stringHash(id) as int)
    }
  }

  /** The factory-side constructor call: a null or empty id is `IllegalArgumentException`. */
  method NewSimpleStopwatch(id: Option<string>) returns (r: Result<SimpleStopwatch>)
    ensures (id == None || id.value == []) <==> r == Throws(IllegalArgument)
    ensures r.Ok? ==> (fresh(r.value) && r.value.Valid() && r.value.id == id.value
      && !r.value.running && r.value.lapInstants == [] && r.value.startInstants == [])
  {
    if id == None || id.value == [] {
      return Throws(IllegalArgument);
    }
    var w := new SimpleStopwatch(id.value);
    return Ok(w);
  }

  /** Stopwatch equality is an equivalence that looks at the id only, and equal watches hash alike. */
  lemma EqualsById(a: SimpleStopwatch, b: SimpleStopwatch, c: SimpleStopwatch, stringHash: string -> int32)
    ensures a.Equals(Instance(a))
    ensures a.Equals(Instance(b)) <==> a.id == b.id
    ensures a.Equals(Instance(b)) ==> b.Equals(Instance(a)) && a.HashCode(stringHash) == b.HashCode(stringHash)
    ensures a.Equals(Instance(b)) && b.Equals(Instance(c)) ==> a.Equals(Instance(c))
    ensures !a.Equals(Foreign) && !a.Equals(Null)
  {
  }

  /** Lap times recorded through the watch's operations are never negative. */
  lemma LapTimesNonNegative(w: SimpleStopwatch)
    requires w.Valid()
    ensures forall k :: 0 <= k < |w.lapInstants| ==> LapTimes(w.startInstants, w.lapInstants)[k] >= 0
  {
    if w.startInstants != [] {
      SpansNonNegative(w.startInstants, 1, w.startInstants[0], w.lapInstants);
    }
  }

  /**
   * The lap times of two runs, the first with one intermediate lap, when the
   * second start comes strictly after the first stop.
   */
  lemma PausedRunLapTimes(t0: int, t1: int, t2: int, t3: int, t4: int)
    requires t0 <= t1 <= t2 < t3 <= t4
    ensures LapTimes([t0, t3], [t1, t2, t4]) == [
      TimeSpanInMilliseconds(t0, t1),
      TimeSpanInMilliseconds(t1, t2),
      TimeSpanInMilliseconds(t3, t4)]
  {
    var starts := [t0, t3];
    SpansStep(starts, 1, t2, [t4]);
    assert [t4][1..] == [];
    var last := SpansFrom(starts, 1, t2, [t4]);
    assert last == [TimeSpanInMilliseconds(t3, t4)];
    SpansStep(starts, 1, t1, [t2, t4]);
    assert [t2, t4][1..] == [t4];
    var middle := SpansFrom(starts, 1, t1, [t2, t4]);
    assert middle == [TimeSpanInMilliseconds(t1, t2)] + last;
    SpansStep(starts, 1, t0, [t1, t2, t4]);
    assert [t1, t2, t4][1..] == [t2, t4];
    assert LapTimes(starts, [t1, t2, t4]) == [TimeSpanInMilliseconds(t0, t1)] + middle;
  }

  /**
   * Start, lap, stop, start again, stop: the second run's lap is measured
   * from its own start, so the time the watch stood stopped is not counted.
   * This covers a restart strictly after the stop; `RestartAtStopInstant`
   * shows what a restart at the stop's own instant gives.
   */
  method PauseNotCounted(t0: int, t1: int, t2: int, t3: int, t4: int) returns (times: seq<int>)
    requires t0 <= t1 <= t2 < t3 <= t4
    ensures times == [
      TimeSpanInMilliseconds(t0, t1),
      TimeSpanInMilliseconds(t1, t2),
      TimeSpanInMilliseconds(t3, t4)]
  {
    var w := new SimpleStopwatch("watch");
    var _ := w.Start(t0);
    var _ := w.Lap(t1);
    var _ := w.Stop(t2);
    var _ := w.Start(t3);
    var _ := w.Stop(t4);
    assert w.startInstants == [t0, t3] && w.lapInstants == [t1, t2, t4];
    times := w.GetLapTimes();
    PausedRunLapTimes(t0, t1, t2, t3, t4);
  }

  /**
   * When a start instant equals a lap instant, the start is taken as the
   * beginning of that lap (the test `tmpStart <= end`), so that lap reads 0.
   */
  lemma RestartAtStopLapTimes(t0: int, t1: int, t2: int, t4: int)
    requires t0 <= t1 < t2 <= t4
    ensures LapTimes([t0, t2], [t1, t2, t4]) == [TimeSpanInMilliseconds(t0, t1), 0, TimeSpanInMilliseconds(t2, t4)]
  {
    var starts := [t0, t2];
    SpansStep(starts, 2, t2, [t4]);
    assert [t4][1..] == [];
    var last := SpansFrom(starts, 2, t2, [t4]);
    assert last == [TimeSpanInMilliseconds(t2, t4)];
    SpansStep(starts, 1, t1, [t2, t4]);
    assert [t2, t4][1..] == [t4];
    assert TimeSpanInMilliseconds(t2, t2) == 0;
    var middle := SpansFrom(starts, 1, t1, [t2, t4]);
    assert middle == [0] + last;
    SpansStep(starts, 1, t0, [t1, t2, t4]);
    assert [t1, t2, t4][1..] == [t2, t4];
    assert LapTimes(starts, [t1, t2, t4]) == [TimeSpanInMilliseconds(t0, t1)] + middle;
  }

  /**
   * Start, lap, stop, then a restart at the very instant of the stop: the
   * stopping lap reads 0 rather than its span, because the restart instant
   * is taken as that lap's beginning.
   */
  method RestartAtStopInstant(t0: int, t1: int, t2: int, t4: int) returns (times: seq<int>)
    requires t0 <= t1 < t2 <= t4
    ensures times == [TimeSpanInMilliseconds(t0, t1), 0, TimeSpanInMilliseconds(t2, t4)]
  {
    var w := new SimpleStopwatch("watch");
    var _ := w.Start(t0);
    var _ := w.Lap(t1);
    var _ := w.Stop(t2);
    var _ := w.Start(t2);
    var _ := w.Stop(t4);
    assert w.startInstants == [t0, t2] && w.lapInstants == [t1, t2, t4];
    times := w.GetLapTimes();
    RestartAtStopLapTimes(t0, t1, t2, t4);
  }

  /**
   * Start, stop, then a restart and a lap at one instant: this records the
   * same start and lap instants as `RestartAtStopInstant`, and here the lap
   * that reads 0 is the right answer. Only the instants are kept, so the two
   * histories cannot be told apart.
   */
  method LapAtRestartInstant(t0: int, t1: int, t2: int, t4: int) returns (times: seq<int>)
    requires t0 <= t1 < t2 <= t4
    ensures times == [TimeSpanInMilliseconds(t0, t1), 0, TimeSpanInMilliseconds(t2, t4)]
  {
    var w := new SimpleStopwatch("watch");
    var _ := w.Start(t0);
    var _ := w.Stop(t1);
    var _ := w.Start(t2);
    var _ := w.Lap(t2);
    var _ := w.Stop(t4);
    assert w.startInstants == [t0, t2] && w.lapInstants == [t1, t2, t4];
    times := w.GetLapTimes();
    RestartAtStopLapTimes(t0, t1, t2, t4);
  }
}
