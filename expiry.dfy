/** The expiration policy shared by SessionManager.validate and the store sweep,
    with durations and instants in nanoseconds, as Go's time.Duration counts them. */
module Expiry {

  const Second: int := 1_000_000_000
  const Minute: int := 60 * Second
  const Hour: int := 60 * Minute

  /** The two timestamps of a session record that the policy looks at. */
  datatype Stamp = Stamp(createdAt: int, lastActivityAt: int)

  /** time.Since(lastActivityAt) > idle || time.Since(createdAt) > absolute.
      Both comparisons are strict: a record exactly at a threshold is still live. */
  predicate Expired(s: Stamp, now: int, idle: int, absolute: int) {
    now - s.lastActivityAt > idle || now - s.createdAt > absolute
  }

  /** What one sweep leaves of a table of records. */
  function Sweep(t: map<string, Stamp>, now: int, idle: int, absolute: int): map<string, Stamp> {
    map id | id in t && !Expired(t[id], now, idle, absolute) :: t[id]
  }

  /** The sweep removes exactly the expired records and keeps the others as they were. */
  lemma SweepRemovesExactlyExpired(t: map<string, Stamp>, now: int, idle: int, absolute: int, id: string)
    ensures id in Sweep(t, now, idle, absolute) <==> id in t && !Expired(t[id], now, idle, absolute)
    ensures id in Sweep(t, now, idle, absolute) ==> Sweep(t, now, idle, absolute)[id] == t[id]
  {
  }

  /** A record sitting exactly on both thresholds survives; one nanosecond later it is gone. */
  lemma SweepThreshold(t: map<string, Stamp>, now: int, idle: int, absolute: int, id: string)
    requires id in t && now - t[id].lastActivityAt == idle && now - t[id].createdAt <= absolute
    ensures id in Sweep(t, now, idle, absolute)
    ensures id !in Sweep(t, now + 1, idle, absolute)
  {
  }

  /** Sweeping twice at the same instant removes nothing more. */
  lemma SweepIdempotent(t: map<string, Stamp>, now: int, idle: int, absolute: int)
    ensures Sweep(Sweep(t, now, idle, absolute), now, idle, absolute) == Sweep(t, now, idle, absolute)
  {
  }

  /** A later sweep removes at least what an earlier one would have removed. */
  lemma SweepLaterRemovesMore(t: map<string, Stamp>, earlier: int, later: int, idle: int, absolute: int)
    requires earlier <= later
    ensures Sweep(t, later, idle, absolute).Keys <= Sweep(t, earlier, idle, absolute).Keys
  {
  }

  /** Sweeping after an upsert is the same as upserting a live record into the swept table,
      or deleting the key when the new record is already expired. */
  lemma SweepAfterWrite(t: map<string, Stamp>, id: string, s: Stamp, now: int, idle: int, absolute: int)
    ensures Sweep(t[id := s], now, idle, absolute)
         == if Expired(s, now, idle, absolute) then Sweep(t, now, idle, absolute) - {id}
            else Sweep(t, now, idle, absolute)[id := s]
  {
  }

  /** Sweeping after a delete is deleting from the swept table. */
  lemma SweepAfterDestroy(t: map<string, Stamp>, id: string, now: int, idle: int, absolute: int)
    ensures Sweep(t - {id}, now, idle, absolute) == Sweep(t, now, idle, absolute) - {id}
  {
  }

  /** int(d / time.Second): Go's integer division truncates toward zero. */
  function WholeSeconds(d: int): (r: int)
    ensures d >= 0 ==> r >= 0 && r * Second <= d < (r + 1) * Second
    ensures d < 0 ==> r <= 0 && (r - 1) * Second < d <= r * Second
  {
    if d >= 0 then d / Second else -((-d) / Second)
  }
}
