/** The daily conversion quota: the persisted record `{count, lastResetDate}`,
    its best-effort read and write, and the lazy day rollover. Instants are
    milliseconds since the Unix epoch; a calendar day is a UTC day. */
module Quota {

  /** Conversions allowed per day. */
  const DAILY_LIMIT: nat := 3

  const MS_PER_DAY: nat := 86_400_000

  /** The persisted record. */
  datatype QuotaRecord = QuotaRecord(count: nat, lastReset: nat)

  /** What the counter file holds: nothing, something that does not read back
      as a record, or a record. */
  datatype Stored = Absent | Corrupt | Saved(record: QuotaRecord)

  /** The UTC calendar day an instant falls on, counted from 1970-01-01; two
      instants have the same ISO date prefix exactly when their days agree. */
  function UtcDay(t: nat): nat
  {
    t / MS_PER_DAY
  }

  /** The record was last reset on an earlier (or later) UTC day than `now`. */
  predicate NeedsRollover(r: QuotaRecord, now: nat)
  {
    UtcDay(r.lastReset) != UtcDay(now)
  }

  /** At start-up a missing counter file is created holding a zero record. */
  function Boot(existing: Stored, now: nat): Stored
  {
    if existing.Absent? then Saved(QuotaRecord(0, now)) else existing
  }

  /** Reading the counter: a file that cannot be read back as a record yields a
      zero record dated now, which never asks for a rollover. */
  function ReadRecord(stored: Stored, now: nat): (r: QuotaRecord)
    ensures stored.Saved? ==> r == stored.record
    ensures !stored.Saved? ==> r.count == 0 && r.lastReset == now && !NeedsRollover(r, now)
  {
    if stored.Saved? then stored.record else QuotaRecord(0, now)
  }

  /** Writing the counter; a failed write leaves the stored value as it was. */
  function WriteRecord(stored: Stored, r: QuotaRecord, ok: bool): Stored
  {
    if ok then Saved(r) else stored
  }

  /** The rollover a request performs: when the record read was last reset on
      another day, a zero record dated now is written. */
  function Rollover(stored: Stored, now: nat, ok: bool): Stored
  {
    if NeedsRollover(ReadRecord(stored, now), now)
    then WriteRecord(stored, QuotaRecord(0, now), ok)
    else stored
  }

  /** A successful write is what the next read returns; a failed one leaves
      the next read as it was. */
  lemma WriteThenRead(stored: Stored, r: QuotaRecord, ok: bool, now: nat)
    ensures ok ==> ReadRecord(WriteRecord(stored, r, ok), now) == r
    ensures !ok ==> ReadRecord(WriteRecord(stored, r, ok), now) == ReadRecord(stored, now)
  {
  }

  /** No stored record counts more conversions than the daily limit. */
  predicate WithinLimit(stored: Stored)
  {
    stored.Saved? ==> stored.record.count <= DAILY_LIMIT
  }

  /** The day of an instant is the one whose 24-hour window holds it. */
  lemma UtcDayWindow(t: nat)
    ensures UtcDay(t) * MS_PER_DAY <= t < (UtcDay(t) + 1) * MS_PER_DAY
  {
  }

  /** A rollover happens exactly when a saved record is dated on another day
      and the write succeeds; it then stores a zero record dated now. */
  lemma RolloverOnlyOnNewDay(stored: Stored, now: nat, ok: bool)
    ensures Rollover(stored, now, ok) != stored <==>
              ok && stored.Saved? && NeedsRollover(stored.record, now)
    ensures Rollover(stored, now, ok) != stored ==>
              Rollover(stored, now, ok) == Saved(QuotaRecord(0, now))
  {
  }

  /** Checks on the same day as the record's last reset never reset the count. */
  lemma SameDayNeverResets(stored: Stored, now: nat, ok: bool)
    requires stored.Saved? && UtcDay(stored.record.lastReset) == UtcDay(now)
    ensures Rollover(stored, now, ok) == stored
  {
  }

  /** Once a rollover has been written, further checks on the same day change
      nothing: a new day resets the count at most once. */
  lemma RolloverIdempotent(stored: Stored, t1: nat, t2: nat, ok: bool)
    requires UtcDay(t1) == UtcDay(t2)
    ensures Rollover(Rollover(stored, t1, true), t2, ok) == Rollover(stored, t1, true)
  {
  }

  /** The counter file: `getConversionCount` and `updateConversionCount`. */
  class CounterFile {
    var stored: Stored

    /** Creates the file with a zero record when it does not exist yet. */
    constructor (existing: Stored, now: nat)
      ensures stored == Boot(existing, now)
    {
      stored := if existing.Absent? then Saved(QuotaRecord(0, now)) else existing;
    }

    /** Reads the record, falling back to a zero record dated now. */
    method Read(now: nat) returns (r: QuotaRecord)
      ensures r == ReadRecord(stored, now)
    {
      match stored
      case Saved(record) => r := record;
      case _ => r := QuotaRecord(0, now);
    }

    /** Writes the record; a failure (`ok` false) is swallowed and the file
      keeps what it held. */
    method Write(count: nat, resetDate: nat, ok: bool)
      modifies this
      ensures stored == WriteRecord(old(stored), QuotaRecord(count, resetDate), ok)
    {
      if ok {
        stored := Saved(QuotaRecord(count, resetDate));
      }
    }
  }
}
