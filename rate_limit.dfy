/**
 * The fixed-window, per-client request counter of the weather proxy
 * (`checkRateLimit` and the module-level `RATE_LIMIT` table).
 * The clock is a parameter `now` (milliseconds).
 */
module RateLimit {

  /** Length of one window in milliseconds (60 * 1000). */
  const WindowMs: int := 60 * 1000
  /** Requests admitted per client and window. */
  const MaxRequests: int := 60

  /** One table entry: requests counted so far and the start of the window. */
  datatype Entry = Entry(count: int, timestamp: int)

  /** The table invariant: every stored count lies in 1..MaxRequests. */
  ghost predicate ValidTable(table: map<string, Entry>)
  {
    forall ip :: ip in table ==> 1 <= table[ip].count <= MaxRequests
  }

  /** An entry that is missing, or whose window has elapsed (strictly more than WindowMs ago). */
  predicate Expired(table: map<string, Entry>, ip: string, now: int)
  {
    ip !in table || now - table[ip].timestamp > WindowMs
  }

  /**
   * The decision and the new table after one request from `ip` at time `now`.
   * A missing or expired entry restarts the window with count 1; a full window
   * rejects and leaves the entry alone; otherwise the count grows by exactly one.
   */
  function CheckRate(table: map<string, Entry>, ip: string, now: int): (r: (bool, map<string, Entry>))
    // only the caller's entry may be created or changed
    ensures r.1 - {ip} == table - {ip}
    ensures ip in r.1
    ensures ValidTable(table) ==> ValidTable(r.1)
    // a fresh window: admitted, count 1, window starts now
    ensures Expired(table, ip, now) ==> r.0 && r.1[ip] == Entry(1, now)
    // inside the window: admitted exactly when the count was below the maximum
    ensures !Expired(table, ip, now) ==>
      r.0 == (table[ip].count < MaxRequests) &&
      r.1[ip] == (if r.0 then Entry(table[ip].count + 1, table[ip].timestamp) else table[ip])
  {
    if Expired(table, ip, now) then
      (true, table[ip := Entry(1, now)])
    else if table[ip].count >= MaxRequests then
      (false, table)
    else
      (true, table[ip := table[ip].(count := table[ip].count + 1)])
  }

  /** The process-wide table, changed in place by `Check`. */
  class RateLimiter {
    var entries: map<string, Entry>

    ghost predicate Valid()
      reads this
    {
      ValidTable(entries)
    }

    constructor ()
      ensures Valid() && entries == map[]
    {
      entries := map[];
    }

    /** `checkRateLimit(ip)` at time `now`. */
    method Check(ip: string, now: int) returns (allowed: bool)
      requires Valid()
      modifies this
      ensures Valid()
      ensures (allowed, entries) == CheckRate(old(entries), ip, now)
    {
      if ip !in entries || now - entries[ip].timestamp > WindowMs {
        entries := entries[ip := Entry(1, now)];
        return true;
      }
      if entries[ip].count >= MaxRequests {
        return false;
      }
      entries := entries[ip := entries[ip].(count := entries[ip].count + 1)];
      return true;
    }
  }

  /** Feeds requests from one client at the given times through the table; returns the decisions. */
  function Replay(table: map<string, Entry>, ip: string, times: seq<int>): (r: (seq<bool>, map<string, Entry>))
    ensures |r.0| == |times|
    ensures r.1 - {ip} == table - {ip}
    decreases |times|
  {
    if times == [] then ([], table)
    else
      var step := CheckRate(table, ip, times[0]);
      var rest := Replay(step.1, ip, times[1..]);
      ([step.0] + rest.0, rest.1)
  }

  /**
   * Requests at `times` whose window started at `start` and that are all within
   * WindowMs of it, arriving when `done` requests have already been admitted:
   * exactly the first MaxRequests - done of them are admitted.
   */
  lemma {:induction false} ReplayInWindow(table: map<string, Entry>, ip: string, times: seq<int>, start: int, done: int)
    requires ip in table && table[ip] == Entry(done, start) && 1 <= done <= MaxRequests
    requires forall k :: 0 <= k < |times| ==> times[k] - start <= WindowMs
    ensures forall k :: 0 <= k < |times| ==> Replay(table, ip, times).0[k] == (done + k < MaxRequests)
    decreases |times|
  {
    if times != [] {
      var step := CheckRate(table, ip, times[0]);
      var next := if done < MaxRequests then done + 1 else done;
      ReplayInWindow(step.1, ip, times[1..], start, next);
      var r := Replay(table, ip, times);
      assert r.0 == [step.0] + Replay(step.1, ip, times[1..]).0;
      forall k | 0 <= k < |times| ensures r.0[k] == (done + k < MaxRequests) {
        if k > 0 {
          assert r.0[k] == Replay(step.1, ip, times[1..]).0[k - 1];
          assert times[1..][k - 1] == times[k];
        }
      }
    }
  }

  /**
   * The 60th request of a window is admitted and the 61st is rejected: starting
   * from a missing or expired entry, a burst within one window from its first
   * request has exactly its first MaxRequests requests admitted.
   */
  lemma {:induction false} BurstWithinWindow(table: map<string, Entry>, ip: string, times: seq<int>)
    requires |times| > 0 && Expired(table, ip, times[0])
    requires forall k :: 0 <= k < |times| ==> times[k] - times[0] <= WindowMs
    ensures forall k :: 0 <= k < |times| ==> Replay(table, ip, times).0[k] == (k < MaxRequests)
  {
    var step := CheckRate(table, ip, times[0]);
    ReplayInWindow(step.1, ip, times[1..], times[0], 1);
    var r := Replay(table, ip, times);
    forall k | 0 <= k < |times| ensures r.0[k] == (k < MaxRequests) {
      if k > 0 {
        assert r.0[k] == Replay(step.1, ip, times[1..]).0[k - 1];
        assert times[1..][k - 1] == times[k];
      }
    }
  }

  /** Once the window has elapsed, a client that had been rejected is admitted again with a fresh count. */
  lemma WindowResets(table: map<string, Entry>, ip: string, now: int)
    requires ip in table && table[ip].count >= MaxRequests
    requires now - table[ip].timestamp > WindowMs
    ensures CheckRate(table, ip, now).0 && CheckRate(table, ip, now).1[ip].count == 1
  {
  }
}
