/** What one run of the reconciliation sweep does to each row, and that a second run changes nothing. */
module SweepProperties {
  import opened Wrappers
  import opened EquipmentLog

  /** An active session whose last heartbeat is over an hour old ends at that heartbeat. */
  lemma StaleHeartbeatEndsAtLastUpdate(t: Table, now: int, id: nat)
    requires ClosedHaveEnd(t) && id in t
    requires t[id].active && t[id].lastUpdate.Some? && t[id].lastUpdate.value < now - StaleAfter
    ensures !Sweep(t, now)[id].active && Sweep(t, now)[id].processed
    ensures Sweep(t, now)[id].finished == t[id].lastUpdate
  {
  }

  /** An active session with no heartbeat that started over an hour ago ends a minute after it started, and is removed as noise. */
  lemma SilentSessionEndsAfterFallback(t: Table, now: int, id: nat)
    requires ClosedHaveEnd(t) && id in t
    requires t[id].active && !t[id].processed && t[id].lastUpdate.None? && t[id].started < now - StaleAfter
    ensures !Sweep(t, now)[id].active && Sweep(t, now)[id].processed && Sweep(t, now)[id].removed
    ensures Sweep(t, now)[id].finished == Some(t[id].started + FallbackDuration)
  {
    var closed := CloseStale(t, now);
    assert closed[id] == Ended(t[id], t[id].started + FallbackDuration);
    assert Duration(closed[id]) == FallbackDuration;
    assert ClassifyClosed(closed)[id] == Classify(closed[id]);
  }

  /** An active session that is not stale is left exactly as it was. */
  lemma FreshSessionUntouched(t: Table, now: int, id: nat)
    requires ClosedHaveEnd(t) && id in t
    requires t[id].active && LastActivity(t[id]) >= now - StaleAfter
    ensures Sweep(t, now)[id] == t[id]
  {
  }

  /** A closed, unprocessed row is removed exactly when it lasted at most a minute (or was already removed). */
  lemma NoiseRemovedIff(t: Table, now: int, id: nat)
    requires ClosedHaveEnd(t) && id in t
    requires !t[id].active && !t[id].processed
    ensures Sweep(t, now)[id].removed <==> t[id].removed || Duration(t[id]) <= NoiseThreshold
    ensures Sweep(t, now)[id].processed
  {
  }

  /** After the sweep every closed row is processed. */
  lemma ClosedRowsProcessed(t: Table, now: int, id: nat)
    requires ClosedHaveEnd(t) && id in t
    ensures !Sweep(t, now)[id].active ==> Sweep(t, now)[id].processed
  {
  }

  /** A session still active after the sweep was neither classified nor otherwise changed. */
  lemma ActiveRowsNotClassified(t: Table, now: int, id: nat)
    requires ClosedHaveEnd(t) && id in t
    requires Sweep(t, now)[id].active
    ensures Sweep(t, now)[id] == t[id]
  {
  }

  /** A row neither active nor unprocessed is untouched. */
  lemma ProcessedRowsUntouched(t: Table, now: int, id: nat)
    requires ClosedHaveEnd(t) && id in t
    requires !t[id].active && t[id].processed
    ensures Sweep(t, now)[id] == t[id]
  {
  }

  /** The second pass changes only the `removed` and `processed` flags, and only on closed rows. */
  lemma ClassifyChangesOnlyFlags(t: Table, id: nat)
    requires ClosedHaveEnd(t) && id in t
    ensures ClassifyClosed(t)[id].(removed := t[id].removed, processed := t[id].processed) == t[id]
    ensures t[id].active ==> ClassifyClosed(t)[id] == t[id]
  {
  }

  /** A second sweep at the same time changes nothing. */
  lemma SweepIdempotent(t: Table, now: int)
    requires ClosedHaveEnd(t)
    ensures ClosedHaveEnd(Sweep(t, now))
    ensures Sweep(Sweep(t, now), now) == Sweep(t, now)
  {
  }

  /** The invariants of a stored row: active exactly while unfinished, times ordered, flags in order. */
  ghost predicate WellFormedRow(e: LogEntry)
  {
    (e.active <==> e.finished.None?) &&
    (e.lastUpdate.Some? ==> e.started <= e.lastUpdate.value) &&
    (e.finished.Some? ==> e.started <= e.finished.value) &&
    (e.processed ==> !e.active) &&
    (e.removed ==> e.processed)
  }

  ghost predicate WellFormed(t: Table)
  {
    forall id | id in t :: WellFormedRow(t[id])
  }

  /**
   * The sweep keeps the row invariants, never reopens or re-times a closed
   * row, never clears `processed`, and removes only rows of at most a minute.
   */
  lemma SweepPreservesWellFormed(t: Table, now: int)
    requires WellFormed(t)
    ensures ClosedHaveEnd(t)
    ensures WellFormed(Sweep(t, now))
    ensures forall id | id in t && !t[id].active ::
      !Sweep(t, now)[id].active && Sweep(t, now)[id].finished == t[id].finished
    ensures forall id | id in t && t[id].processed :: Sweep(t, now)[id].processed
    ensures forall id | id in t && Sweep(t, now)[id].removed && !t[id].removed ::
      Duration(Sweep(t, now)[id]) <= NoiseThreshold
  {
  }

  /** A session exactly one hour old is not stale: the comparison is strict. */
  lemma ExactlyOneHourOldStaysActive(e: LogEntry, now: int)
    requires e.active && e.lastUpdate.None? && e.started == now - StaleAfter
    ensures Sweep(map[0 := e], now) == map[0 := e]
  {
  }

  /** A recent heartbeat keeps a long-running session open. */
  lemma RecentHeartbeatKeepsOldSessionOpen(e: LogEntry, now: int)
    requires e.active && e.started < now - 2 * StaleAfter && e.lastUpdate == Some(now - 10)
    ensures Sweep(map[0 := e], now) == map[0 := e]
  {
  }

  /** A closed session of exactly sixty seconds is removed; one of sixty-one is kept. */
  lemma NoiseBoundary(e: LogEntry)
    requires !e.active && !e.processed && !e.removed && e.finished.Some?
    ensures e.finished.value == e.started + 60 ==> Sweep(map[0 := e], 0)[0].removed
    ensures e.finished.value == e.started + 61 ==> !Sweep(map[0 := e], 0)[0].removed
  {
  }

  /** Started at 0, a heartbeat at 30 minutes, swept at 2 hours: closed at 30 minutes and kept. */
  lemma HeartbeatScenario(e: LogEntry)
    requires e.active && e.started == 0 && e.lastUpdate == Some(1800) && !e.processed && !e.removed
    ensures Sweep(map[7 := e], 7200)[7].finished == Some(1800)
    ensures Sweep(map[7 := e], 7200)[7].processed && !Sweep(map[7 := e], 7200)[7].removed
  {
  }

  /** The table after the scheduler runs the sweep at each of `times`, in order. */
  function SweepEach(t: Table, times: seq<int>): (r: Table)
    requires WellFormed(t)
    ensures WellFormed(r) && r.Keys == t.Keys
    decreases |times|
  {
    if times == [] then t
    else
      SweepPreservesWellFormed(t, times[0]);
      SweepEach(Sweep(t, times[0]), times[1..])
  }

  /** A processed row is never reconsidered, however many sweeps run. */
  lemma {:induction false} ProcessedRowSettled(t: Table, times: seq<int>, id: nat)
    requires WellFormed(t) && id in t && t[id].processed
    ensures SweepEach(t, times)[id] == t[id]
    decreases |times|
  {
    if times != [] {
      ProcessedRowsUntouched(t, times[0], id);
      ProcessedRowSettled(Sweep(t, times[0]), times[1..], id);
    }
  }

  /** A closed row stays closed with the same finish time, however many sweeps run. */
  lemma {:induction false} FinishedWriteOnce(t: Table, times: seq<int>, id: nat)
    requires WellFormed(t) && id in t && !t[id].active
    ensures !SweepEach(t, times)[id].active && SweepEach(t, times)[id].finished == t[id].finished
    decreases |times|
  {
    if times != [] {
      SweepPreservesWellFormed(t, times[0]);
      FinishedWriteOnce(Sweep(t, times[0]), times[1..], id);
    }
  }

  /** Repeating the sweep at one time gives the same table as running it once. */
  lemma {:induction false} RepeatedSweepSameTime(t: Table, now: int, times: seq<int>)
    requires WellFormed(t)
    requires |times| >= 1 && forall k | 0 <= k < |times| :: times[k] == now
    ensures SweepEach(t, times) == Sweep(t, now)
    decreases |times|
  {
    var once := Sweep(t, now);
    SweepPreservesWellFormed(t, now);
    assert SweepEach(t, times) == SweepEach(once, times[1..]);
    if |times| > 1 {
      RepeatedSweepSameTime(once, now, times[1..]);
      SweepIdempotent(t, now);
    }
  }

  /** A processed, closed row with no finish time does not stop the sweep and is left alone. */
  lemma ProcessedRowWithoutEndUntouched(e: LogEntry, now: int)
    requires !e.active && e.processed && e.finished.None?
    ensures ClosedHaveEnd(map[0 := e])
    ensures Sweep(map[0 := e], now) == map[0 := e]
  {
  }
}
