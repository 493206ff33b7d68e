/**
 * The equipment log: one row per usage session of a device, and the pure
 * description of what the reconciliation sweep (`bb:fix-equipment-log`)
 * does to the whole table. Timestamps are integer seconds.
 */
module EquipmentLog {
  import opened Wrappers

  /** `Carbon::now()->subHour()`: a session is stale once its last evidence is older than this. */
  const StaleAfter: int := 3600
  /** `$log->started->addMinute()`: the end recorded for a session that never sent a heartbeat. */
  const FallbackDuration: int := 60
  /** Sessions that lasted at most this many seconds are marked `removed`. */
  const NoiseThreshold: int := 60

  /** One row of the equipment log. */
  datatype LogEntry = LogEntry(
    device: string,
    userId: nat,
    started: int,
    lastUpdate: Option<int>,
    finished: Option<int>,
    active: bool,
    processed: bool,
    removed: bool)

  /** The table, keyed by the row id. */
  type Table = map<nat, LogEntry>

  function Abs(x: int): (r: nat)
    ensures r == x || r == -x
  {
    if x < 0 then -x else x
  }

  /** The newest evidence that the session was in use. */
  function LastActivity(e: LogEntry): int
  {
    e.lastUpdate.GetOr(e.started)
  }

  /**
   * The end time the first pass gives an active session, or None when the
   * session is not stale yet. A session with a heartbeat ends at its last
   * heartbeat; one without ends a fixed minute after it started.
   */
  function StaleEnd(e: LogEntry, now: int): (r: Option<int>)
    ensures r.Some? <==> LastActivity(e) < now - StaleAfter
    ensures r.Some? && e.lastUpdate.Some? ==> r.value == e.lastUpdate.value
    ensures r.Some? && e.lastUpdate.None? ==> r.value == e.started + FallbackDuration
  {
    match e.lastUpdate
    case Some(u) => if u < now - StaleAfter then Some(u) else None
    case None => if e.started < now - StaleAfter then Some(e.started + FallbackDuration) else None
  }

  /** `endSession(id, t)`: the row after it is closed at `t`. */
  function Ended(e: LogEntry, t: int): (r: LogEntry)
    ensures !r.active && r.finished == Some(t)
    ensures r.(finished := e.finished, active := e.active) == e
  {
    e.(finished := Some(t), active := false)
  }

  /** The first pass applied to one active row. */
  function CloseIfStale(e: LogEntry, now: int): (r: LogEntry)
    ensures LastActivity(e) >= now - StaleAfter ==> r == e
    ensures LastActivity(e) < now - StaleAfter ==>
      !r.active && r.(finished := e.finished, active := e.active) == e &&
      r.finished == Some(if e.lastUpdate.Some? then e.lastUpdate.value else e.started + FallbackDuration)
  {
    match StaleEnd(e, now)
    case Some(t) => Ended(e, t)
    case None => e
  }

  /** Every closed, unprocessed row has an end time, so the second pass can take its duration. */
  ghost predicate ClosedHaveEnd(t: Table)
  {
    forall id | id in t :: !t[id].active && !t[id].processed ==> t[id].finished.Some?
  }

  /** `diffInSeconds`, which is absolute. */
  function Duration(e: LogEntry): (r: nat)
    requires e.finished.Some?
    ensures r == e.finished.value - e.started || r == e.started - e.finished.value
  {
    Abs(e.finished.value - e.started)
  }

  /** The second pass applied to one closed, unprocessed row. */
  function Classify(e: LogEntry): (r: LogEntry)
    requires e.finished.Some?
    ensures r.processed
    ensures r.removed <==> e.removed || Duration(e) <= NoiseThreshold
    ensures r.(removed := e.removed, processed := e.processed) == e
  {
    e.(removed := if Duration(e) <= NoiseThreshold then true else e.removed, processed := true)
  }

  /** `getActiveRecords()`: the active rows. */
  function ActiveRows(t: Table): (r: Table)
    ensures r.Keys <= t.Keys
    ensures forall id | id in t :: id in r <==> t[id].active
    ensures forall id | id in r :: r[id] == t[id]
  {
    map id | id in t && t[id].active :: t[id]
  }

  /** `getUnprocessedRecords()`: the rows not yet processed. */
  function UnprocessedRows(t: Table): (r: Table)
    ensures r.Keys <= t.Keys
    ensures forall id | id in t :: id in r <==> !t[id].processed
    ensures forall id | id in r :: r[id] == t[id]
  {
    map id | id in t && !t[id].processed :: t[id]
  }

  /** The table after the first pass: stale active sessions are closed. */
  function CloseStale(t: Table, now: int): (r: Table)
    ensures r.Keys == t.Keys
    ensures ClosedHaveEnd(t) ==> ClosedHaveEnd(r)
  {
    map id | id in t :: if t[id].active then CloseIfStale(t[id], now) else t[id]
  }

  /** The table after the second pass: closed, unprocessed rows are classified. */
  function ClassifyClosed(t: Table): (r: Table)
    requires ClosedHaveEnd(t)
    ensures r.Keys == t.Keys
  {
    map id | id in t :: if !t[id].active && !t[id].processed then Classify(t[id]) else t[id]
  }

  /** The whole sweep: the second pass reads the table the first pass left. */
  function Sweep(t: Table, now: int): (r: Table)
    requires ClosedHaveEnd(t)
    ensures r.Keys == t.Keys
  {
    ClassifyClosed(CloseStale(t, now))
  }

  /** The equipment log table; `rows` are the stored rows. */
  class EquipmentLogRepository {
    var rows: Table

    constructor (initial: Table)
      ensures rows == initial
    {
      rows := initial;
    }

    method GetActiveRecords() returns (records: Table)
      ensures records == ActiveRows(rows)
    {
      records := ActiveRows(rows);
    }

    method GetUnprocessedRecords() returns (records: Table)
      ensures records == UnprocessedRows(rows)
    {
      records := UnprocessedRows(rows);
    }

    /** Closes the session `id` at `t`; no other row changes. */
    method EndSession(id: nat, t: int)
      requires id in rows
      modifies this
      ensures rows == old(rows)[id := Ended(old(rows)[id], t)]
    {
      rows := rows[id := Ended(rows[id], t)];
    }

    /** `$record->Save()`: writes the in-memory copy of row `id` back. */
    method Save(id: nat, record: LogEntry)
      requires id in rows
      modifies this
      ensures rows == old(rows)[id := record]
    {
      rows := rows[id := record];
    }
  }

  /** The console command `bb:fix-equipment-log`. */
  class CheckFixEquipmentLog {
    const equipmentLogRepository: EquipmentLogRepository

    constructor (repository: EquipmentLogRepository)
      ensures equipmentLogRepository == repository
    {
      equipmentLogRepository := repository;
    }

    /**
     * Runs the sweep at time `now`: first closes stale active sessions,
     * then classifies every closed, unprocessed row.
     */
    method Fire(now: int)
      requires ClosedHaveEnd(equipmentLogRepository.rows)
      modifies equipmentLogRepository
      ensures equipmentLogRepository.rows == Sweep(old(equipmentLogRepository.rows), now)
    {
      CloseStaleSessions(now);
      ClassifyUnprocessed();
    }

    /** The first loop of `fire()`: ends every active session that is stale at `now`. */
    method CloseStaleSessions(now: int)
      modifies equipmentLogRepository
      ensures equipmentLogRepository.rows == CloseStale(old(equipmentLogRepository.rows), now)
    {
      var repo := equipmentLogRepository;
      ghost var initial := repo.rows;
      var records := repo.GetActiveRecords();
      var todo := records.Keys;
      while todo != {}
        invariant todo <= records.Keys
        invariant repo.rows.Keys == initial.Keys
        invariant forall id | id in initial ::
          repo.rows[id] == if id in records && id !in todo then CloseIfStale(initial[id], now) else initial[id]
        decreases todo
      {
        var id :| id in todo;
        var log := records[id];
        if log.lastUpdate.Some? && log.lastUpdate.value < now - StaleAfter {
          repo.EndSession(id, log.lastUpdate.value);
        } else if log.lastUpdate.None? && log.started < now - StaleAfter {
          repo.EndSession(id, log.started + FallbackDuration);
        }
        todo := todo - {id};
      }
    }

    /** The second loop of `fire()`: classifies every closed row not yet processed. */
    method ClassifyUnprocessed()
      requires ClosedHaveEnd(equipmentLogRepository.rows)
      modifies equipmentLogRepository
      ensures equipmentLogRepository.rows == ClassifyClosed(old(equipmentLogRepository.rows))
    {
      var repo := equipmentLogRepository;
      ghost var initial := repo.rows;
      var unprocessed := repo.GetUnprocessedRecords();
      var todo := unprocessed.Keys;
      while todo != {}
        invariant todo <= unprocessed.Keys
        invariant repo.rows.Keys == initial.Keys
        invariant forall id | id in initial ::
          repo.rows[id] == if id in unprocessed && id !in todo && !initial[id].active then Classify(initial[id]) else initial[id]
        decreases todo
      {
        var id :| id in todo;
        var record := unprocessed[id];
        if !record.active {
          var secondsActive := Abs(record.finished.value - record.started);
          if secondsActive <= NoiseThreshold {
            record := record.(removed := true);
          }
          record := record.(processed := true);
          repo.Save(id, record);
        }
        todo := todo - {id};
      }
    }
  }
}
