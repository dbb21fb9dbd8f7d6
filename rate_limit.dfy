/** The per-address request governor: an in-memory table from client key
    to `{count, resetTime}`, a fixed one-hour window of at most ten requests,
    and a sweep of expired records at most every ten minutes. The clock is a
    parameter: the sweep and the check each read it once. */
module RateLimit {
  import opened Wrappers
  import opened JsNumber

  const WindowMs := 60 * 60 * 1000
  const MaxRequests := 10
  const CleanupInterval := 10 * 60 * 1000

  datatype RateRecord = RateRecord(count: int, resetTime: int)

  datatype RateLimitResult = RateLimitResult(allowed: bool, remaining: int, message: Option<string>)

  /** A stored record's count never leaves 1..10. */
  predicate ValidRecord(r: RateRecord) {
    1 <= r.count <= MaxRequests
  }

  predicate ValidTable(m: map<string, RateRecord>) {
    forall k :: k in m ==> ValidRecord(m[k])
  }

  function Lookup(m: map<string, RateRecord>, key: string): Option<RateRecord> {
    if key in m then Some(m[key]) else None
  }

  /** A check opens a new window for an unknown key or once `now` is strictly
      past the record's reset time. */
  predicate StartsWindow(rec: Option<RateRecord>, now: int) {
    rec.None? || now > rec.value.resetTime
  }

  function RejectMessage(minutes: int): string {
    "请求过于频繁，请在 " + IntToDecimal(minutes) + " 分钟后重试（每小时最多 " + IntToDecimal(MaxRequests) + " 次）"
  }

  /** What one check answers, given the key's record after the sweep. */
  function Outcome(rec: Option<RateRecord>, now: int): (r: RateLimitResult)
    ensures r.allowed <==> StartsWindow(rec, now) || rec.value.count < MaxRequests
    ensures StartsWindow(rec, now) ==> r == RateLimitResult(true, MaxRequests - 1, None)
    ensures !r.allowed ==>
      && r.remaining == 0
      && r.message == Some(RejectMessage(CeilDiv(rec.value.resetTime - now, 60000)))
    ensures r.allowed ==> r.message.None?
  {
    if StartsWindow(rec, now) then RateLimitResult(true, MaxRequests - 1, None)
    else if rec.value.count >= MaxRequests then
      RateLimitResult(false, 0, Some(RejectMessage(CeilDiv(rec.value.resetTime - now, 60000))))
    else RateLimitResult(true, MaxRequests - (rec.value.count + 1), None)
  }

  /** The key's record after one check. */
  function NextRecord(rec: Option<RateRecord>, now: int): (n: RateRecord)
    ensures StartsWindow(rec, now) ==> n == RateRecord(1, now + WindowMs)
    ensures !StartsWindow(rec, now) && rec.value.count >= MaxRequests ==> n == rec.value
    ensures !StartsWindow(rec, now) && rec.value.count < MaxRequests ==>
      n == RateRecord(rec.value.count + 1, rec.value.resetTime)
  {
    if StartsWindow(rec, now) then RateRecord(1, now + WindowMs)
    else if rec.value.count >= MaxRequests then rec.value
    else RateRecord(rec.value.count + 1, rec.value.resetTime)
  }

  /** The table after a sweep at `now`: exactly the records with `now > resetTime` are gone. */
  function Swept(m: map<string, RateRecord>, now: int): (s: map<string, RateRecord>)
    ensures forall k :: k in s <==> k in m && now <= m[k].resetTime
    ensures forall k :: k in s ==> s[k] == m[k]
  {
    map k | k in m && now <= m[k].resetTime :: m[k]
  }

  /** The sweep runs only when at least the interval has passed since the last one. */
  predicate SweepDue(lastCleanup: int, now: int) {
    now - lastCleanup >= CleanupInterval
  }

  /** Every check keeps every count in 1..10, and the remaining allowance it
      reports is what the window has left after it: 10 minus the new count
      when allowed, 0 when refused. */
  lemma CheckKeepsInvariant(rec: Option<RateRecord>, now: int)
    requires rec.Some? ==> ValidRecord(rec.value)
    ensures ValidRecord(NextRecord(rec, now))
    ensures 0 <= Outcome(rec, now).remaining <= MaxRequests - 1
    ensures Outcome(rec, now).allowed ==> Outcome(rec, now).remaining == MaxRequests - NextRecord(rec, now).count
    ensures !Outcome(rec, now).allowed ==> NextRecord(rec, now) == rec.value && rec.value.count == MaxRequests
  {
  }

  /** At exactly the reset time the old window still applies. */
  lemma ResetIsStrict(rec: RateRecord)
    requires ValidRecord(rec)
    ensures NextRecord(Some(rec), rec.resetTime).resetTime == rec.resetTime
    ensures rec.count == MaxRequests ==> !Outcome(Some(rec), rec.resetTime).allowed
    ensures NextRecord(Some(rec), rec.resetTime + 1) == RateRecord(1, rec.resetTime + 1 + WindowMs)
  {
  }

  /** A refusal inside a window that began no later than `now` reports
      between 0 and 60 minutes to wait, rounded up. */
  lemma RejectMinutesBound(rec: RateRecord, now: int)
    requires rec.resetTime - WindowMs <= now <= rec.resetTime
    ensures var m := CeilDiv(rec.resetTime - now, 60000);
      0 <= m <= 60 && 60000 * (m - 1) < rec.resetTime - now <= 60000 * m
  {
    var m := CeilDiv(rec.resetTime - now, 60000);
    assert 60000 * (m - 1) < rec.resetTime - now <= 60000 * m;
    assert rec.resetTime - now <= 60 * 60000;
  }

  /** A sweep at a time no later than the check changes neither the answer
      nor the key's new record: it only removes records the check would
      replace anyway. */
  lemma SweepInvisible(m: map<string, RateRecord>, key: string, sweepNow: int, now: int)
    requires sweepNow <= now
    ensures Outcome(Lookup(Swept(m, sweepNow), key), now) == Outcome(Lookup(m, key), now)
    ensures NextRecord(Lookup(Swept(m, sweepNow), key), now) == NextRecord(Lookup(m, key), now)
  {
    if key in m && key !in Swept(m, sweepNow) {
      assert now > m[key].resetTime;
    }
  }

  /** The answers to a run of checks for one key. */
  function CheckAll(rec: Option<RateRecord>, times: seq<int>): (rs: seq<RateLimitResult>)
    ensures |rs| == |times|
    decreases |times|
  {
    if times == [] then []
    else [Outcome(rec, times[0])] + CheckAll(Some(NextRecord(rec, times[0])), times[1..])
  }

  /** Within one window, the check that finds `count` earlier requests
      admitted is allowed exactly while fewer than ten have been. */
  lemma {:induction false} WithinWindow(rec: RateRecord, times: seq<int>)
    requires ValidRecord(rec)
    requires forall k :: 0 <= k < |times| ==> times[k] <= rec.resetTime
    ensures forall k :: 0 <= k < |times| ==> (CheckAll(Some(rec), times)[k].allowed <==> rec.count + k < MaxRequests)
    decreases |times|
  {
    if times != [] {
      var next := NextRecord(Some(rec), times[0]);
      if rec.count < MaxRequests {
        assert next == RateRecord(rec.count + 1, rec.resetTime);
      } else {
        assert next == rec;
      }
      WithinWindow(next, times[1..]);
      forall k | 0 <= k < |times|
        ensures CheckAll(Some(rec), times)[k].allowed <==> rec.count + k < MaxRequests
      {
        if k > 0 {
          assert CheckAll(Some(rec), times)[k] == CheckAll(Some(next), times[1..])[k - 1];
          assert times[1..][k - 1] == times[k];
          if rec.count == MaxRequests {
            assert next.count + (k - 1) >= MaxRequests;
          }
        }
      }
    }
  }

  /** From a fresh key, the first ten checks within the hour are allowed and
      every later one in the same hour is refused. */
  lemma TenPerWindow(start: int, times: seq<int>)
    requires forall k :: 0 <= k < |times| ==> start <= times[k] <= start + WindowMs
    ensures var rs := CheckAll(None, [start] + times);
      forall k :: 0 <= k < |rs| ==> (rs[k].allowed <==> k < MaxRequests)
  {
    var first := RateRecord(1, start + WindowMs);
    assert NextRecord(None, start) == first;
    assert ([start] + times)[1..] == times;
    WithinWindow(first, times);
    var rs := CheckAll(None, [start] + times);
    forall k | 1 <= k < |rs| ensures rs[k].allowed <==> k < MaxRequests {
      assert rs[k] == CheckAll(Some(first), times)[k - 1];
    }
  }

  /** The governor: the record table and the time of the last sweep. */
  class RateGovernor {
    var records: map<string, RateRecord>
    var lastCleanup: int

    ghost predicate Valid()
      reads this
    {
      ValidTable(records)
    }

    /** A fresh table; the module is loaded at `now`. */
    constructor (now: int)
      ensures records == map[] && lastCleanup == now
      ensures Valid()
    {
      records := map[];
      lastCleanup := now;
    }

    /** `cleanup`: nothing within the interval; otherwise the sweep time
        is recorded and every expired record deleted. */
    method Cleanup(now: int)
      requires Valid()
      modifies this
      ensures Valid()
      ensures !SweepDue(old(lastCleanup), now) ==> records == old(records) && lastCleanup == old(lastCleanup)
      ensures SweepDue(old(lastCleanup), now) ==> records == Swept(old(records), now) && lastCleanup == now
    {
      if now - lastCleanup < CleanupInterval {
        return;
      }
      lastCleanup := now;
      ghost var original := records;
      assert original == old(records);
      var pending := records.Keys;
      while pending != {}
        invariant lastCleanup == now
        invariant pending <= original.Keys
        invariant forall k :: k in records <==> k in original && (k in pending || now <= original[k].resetTime)
        invariant forall k :: k in records ==> records[k] == original[k]
        decreases pending
      {
        var key :| key in pending;
        if now > records[key].resetTime {
          records := records - {key};
        }
        pending := pending - {key};
      }
      assert records == Swept(original, now);
    }

    /** `checkRateLimit`: sweep (reading the clock as `sweepNow`), then decide
        for `key` at `now`. Only `key`'s record changes beyond the sweep, and
        a refusal leaves it as it was. */
    method CheckRateLimit(key: string, sweepNow: int, now: int) returns (result: RateLimitResult)
      requires Valid()
      modifies this
      ensures Valid()
      ensures var swept := if SweepDue(old(lastCleanup), sweepNow) then Swept(old(records), sweepNow) else old(records);
        && result == Outcome(Lookup(swept, key), now)
        && records == swept[key := NextRecord(Lookup(swept, key), now)]
      ensures lastCleanup == if SweepDue(old(lastCleanup), sweepNow) then sweepNow else old(lastCleanup)
    {
      Cleanup(sweepNow);
      var rec := Lookup(records, key);
      CheckKeepsInvariant(rec, now);
      if rec.None? || now > rec.value.resetTime {
        records := records[key := RateRecord(1, now + WindowMs)];
        return RateLimitResult(true, MaxRequests - 1, None);
      }
      if rec.value.count >= MaxRequests {
        var minutes := CeilDiv(rec.value.resetTime - now, 60000);
        records := records[key := rec.value];
        return RateLimitResult(false, 0, Some(RejectMessage(minutes)));
      }
      records := records[key := rec.value.(count := rec.value.count + 1)];
      return RateLimitResult(true, MaxRequests - (rec.value.count + 1), None);
    }
  }
}
