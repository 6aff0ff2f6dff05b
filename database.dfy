/**
 * The server's record store (`server/database.js`): the jackpot state record,
 * the jackpot history log and the two in-process lock flags guarding them.
 *
 * The two JSON files become fields holding an `Option`: `None` is a file that
 * does not exist, so every `fs.readFile` that would fail on a missing file
 * takes its failure path here. Amounts are integer thousandths of a dollar:
 * the source rounds every stored amount to three decimals.
 */
module Database {
  import opened Wrappers

  /** The upper end of the accepted range, $10,000,000.000, in thousandths. */
  const MaxAmount: int := 10_000_000_000
  /** The amount the jackpot record starts at and is reset to, $100.00. */
  const BaseAmount: int := 100_000
  /** The number of history entries kept. */
  const MaxHistory: nat := 1000
  /** The retry budget `acquireLock` uses by default. */
  const MaxRetries: int := 5

  datatype JackpotState = JackpotState(currentAmount: int, lastModifiedBy: string, version: int)

  datatype HistoryEntry = HistoryEntry(previousAmount: int, newAmount: int, actionType: string, userId: string)

  datatype LockKind = StateLock | HistoryLock

  /** The record `initDb` writes when the jackpot state file is absent. */
  function DefaultState(): JackpotState {
    JackpotState(BaseAmount, "system", 1)
  }

  predicate InRange(amount: int) {
    0 <= amount <= MaxAmount
  }

  /** The history after `splice(0, length - MAX_HISTORY)` when it is too long: its newest entries. */
  function KeepNewest(h: seq<HistoryEntry>): (r: seq<HistoryEntry>)
    ensures |r| <= |h| && |r| <= MaxHistory
    ensures |r| == |h| || |r| == MaxHistory
    ensures r == h[|h| - |r|..]
  {
    if |h| > MaxHistory then h[|h| - MaxHistory..] else h
  }

  /**
   * Appending one entry and keeping the newest: the entry is last, the
   * entries before it are the newest of the old log in their old order, and
   * nothing is dropped while there is room.
   */
  lemma AppendKeepNewest(h: seq<HistoryEntry>, e: HistoryEntry)
    ensures var r := KeepNewest(h + [e]);
      && 0 < |r| <= MaxHistory
      && r[|r| - 1] == e
      && r[..|r| - 1] == h[|h| - (|r| - 1)..]
      && (|h| < MaxHistory ==> r == h + [e])
  {
    var r := KeepNewest(h + [e]);
    var k := |h| + 1 - |r|;
    assert r == (h + [e])[k..];
    assert r[..|r| - 1] == (h + [e])[k..|h|] == h[k..];
  }

  /** The jackpot state a successful update writes. */
  function Updated(s: JackpotState, newAmount: int, userId: string): JackpotState {
    JackpotState(newAmount, userId, s.version + 1)
  }

  class Store {
    var jackpotRecord: Option<JackpotState>
    var historyRecord: Option<seq<HistoryEntry>>
    var stateLocked: bool
    var historyLocked: bool

    /** The records are whatever is on disk when the process starts; the lock flags start clear. */
    constructor (jackpot: Option<JackpotState>, history: Option<seq<HistoryEntry>>)
      ensures jackpotRecord == jackpot && historyRecord == history
      ensures !stateLocked && !historyLocked
    {
      jackpotRecord, historyRecord := jackpot, history;
      stateLocked, historyLocked := false, false;
    }

    /** The records hold what the store's rules allow: an amount in range, a positive version, a bounded log. */
    predicate Healthy()
      reads this
    {
      && (jackpotRecord.Some? ==> InRange(jackpotRecord.value.currentAmount) && jackpotRecord.value.version >= 1)
      && (historyRecord.Some? ==> |historyRecord.value| <= MaxHistory)
    }

    function Locked(kind: LockKind): bool
      reads this
    {
      match kind
      case StateLock => stateLocked
      case HistoryLock => historyLocked
    }

    /** `initDb`: writes the default record for each file that is absent and leaves present ones alone. */
    method InitDb()
      modifies this
      ensures jackpotRecord == Some(old(jackpotRecord).GetOr(DefaultState()))
      ensures historyRecord == Some(old(historyRecord).GetOr([]))
      ensures stateLocked == old(stateLocked) && historyLocked == old(historyLocked)
      ensures old(jackpotRecord).Some? && old(historyRecord).Some? ==> unchanged(this)
      ensures old(Healthy()) ==> Healthy()
    {
      if jackpotRecord.None? {
        jackpotRecord := Some(DefaultState());
      }
      if historyRecord.None? {
        historyRecord := Some([]);
      }
    }

    /**
     * `acquireLock`: polls the flag up to `maxRetries` times. Nothing else
     * runs between the polls of this sequential model, so a flag that is set
     * at the first poll is still set at the last; `false` stands for the
     * thrown "Failed to acquire lock" error, which leaves the flag set.
     */
    method AcquireLock(kind: LockKind, maxRetries: int) returns (acquired: bool)
      modifies this
      ensures acquired <==> !old(Locked(kind)) && maxRetries > 0
      ensures Locked(kind) == (acquired || old(Locked(kind)))
      ensures jackpotRecord == old(jackpotRecord) && historyRecord == old(historyRecord)
      ensures kind == StateLock ==> historyLocked == old(historyLocked)
      ensures kind == HistoryLock ==> stateLocked == old(stateLocked)
    {
      var retries := 0;
      while retries < maxRetries
        invariant 0 <= retries
        invariant retries > 0 ==> old(Locked(kind))
        invariant unchanged(this)
      {
        if !Locked(kind) {
          if kind == StateLock {
            stateLocked := true;
          } else {
            historyLocked := true;
          }
          return true;
        }
        retries := retries + 1;
      }
      return false;
    }

    /** `releaseLock`: clears the flag whoever set it. */
    method ReleaseLock(kind: LockKind)
      modifies this
      ensures !Locked(kind)
      ensures jackpotRecord == old(jackpotRecord) && historyRecord == old(historyRecord)
      ensures kind == StateLock ==> historyLocked == old(historyLocked)
      ensures kind == HistoryLock ==> stateLocked == old(stateLocked)
    {
      if kind == StateLock {
        stateLocked := false;
      } else {
        historyLocked := false;
      }
    }

    /** `getJackpot`: the stored record, `None` when reading it fails. */
    method GetJackpot() returns (r: Option<JackpotState>)
      ensures r == jackpotRecord
    {
      r := jackpotRecord;
    }

    /** Whether `updateJackpot(newAmount, _)` succeeds from the given lock flag and record. */
    static predicate UpdateSucceeds(locked: bool, record: Option<JackpotState>, newAmount: int) {
      !locked && record.Some? && InRange(newAmount)
    }

    /**
     * `updateJackpot`: under the state lock, reads the record, rejects an
     * amount outside [0, MaxAmount], and otherwise overwrites the record with
     * the new amount, the caller and the next version. The `finally` clears
     * the state lock on every path, including the one where acquiring it
     * failed. The history family is not touched.
     */
    method UpdateJackpot(newAmount: int, userId: string) returns (ok: bool)
      modifies this
      ensures ok == UpdateSucceeds(old(stateLocked), old(jackpotRecord), newAmount)
      ensures ok ==> jackpotRecord == Some(Updated(old(jackpotRecord).value, newAmount, userId))
      ensures !ok ==> jackpotRecord == old(jackpotRecord)
      ensures !stateLocked
      ensures historyRecord == old(historyRecord) && historyLocked == old(historyLocked)
      ensures old(Healthy()) ==> Healthy()
    {
      var acquired := AcquireLock(StateLock, MaxRetries);
      if !acquired {
        ok := false;
      } else {
        var current := jackpotRecord;
        if current.None? {
          ok := false;
        } else if newAmount < 0 || newAmount > MaxAmount {
          ok := false;
        } else {
          jackpotRecord := Some(Updated(current.value, newAmount, userId));
          ok := true;
        }
      }
      ReleaseLock(StateLock);
    }

    /** `resetJackpot`: delegates to `updateJackpot` with the same arguments. */
    method ResetJackpot(baseAmount: int, userId: string) returns (ok: bool)
      modifies this
      ensures ok == UpdateSucceeds(old(stateLocked), old(jackpotRecord), baseAmount)
      ensures ok ==> jackpotRecord == Some(Updated(old(jackpotRecord).value, baseAmount, userId))
      ensures !ok ==> jackpotRecord == old(jackpotRecord)
      ensures !stateLocked
      ensures historyRecord == old(historyRecord) && historyLocked == old(historyLocked)
      ensures old(Healthy()) ==> Healthy()
    {
      ok := UpdateJackpot(baseAmount, userId);
    }

    /** Whether `logJackpotHistory` succeeds from the given lock flag and record. */
    static predicate LogSucceeds(locked: bool, record: Option<seq<HistoryEntry>>) {
      !locked && record.Some?
    }

    /** The history record after `logJackpotHistory(entry)` from the given lock flag and record. */
    static function AfterLog(locked: bool, record: Option<seq<HistoryEntry>>, entry: HistoryEntry)
      : Option<seq<HistoryEntry>>
    {
      if LogSucceeds(locked, record) then Some(KeepNewest(record.value + [entry])) else record
    }

    /**
     * `logJackpotHistory`: under the history lock, appends the entry and keeps
     * the newest `MaxHistory` entries. The lock is cleared on every path and
     * the jackpot family is not touched.
     */
    method LogJackpotHistory(previousAmount: int, newAmount: int, actionType: string, userId: string)
      returns (ok: bool)
      modifies this
      ensures ok == LogSucceeds(old(historyLocked), old(historyRecord))
      ensures historyRecord ==
        AfterLog(old(historyLocked), old(historyRecord), HistoryEntry(previousAmount, newAmount, actionType, userId))
      ensures !historyLocked
      ensures jackpotRecord == old(jackpotRecord) && stateLocked == old(stateLocked)
      ensures old(Healthy()) ==> Healthy()
    {
      var acquired := AcquireLock(HistoryLock, MaxRetries);
      if !acquired {
        ok := false;
      } else {
        var history := historyRecord;
        if history.None? {
          ok := false;
        } else {
          var entry := HistoryEntry(previousAmount, newAmount, actionType, userId);
          historyRecord := Some(KeepNewest(history.value + [entry]));
          ok := true;
        }
      }
      ReleaseLock(HistoryLock);
    }
  }
}
