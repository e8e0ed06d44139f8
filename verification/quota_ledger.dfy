/** The per-user request quota of src/lib/quota.ts: a usage counter against a
    cap, with a window that restarts once enough time has passed since
    `lastResetDate`.

    The elapsed time is raw milliseconds, and the code compares it against 30,
    so the deployed window is 30 milliseconds long. Every operation here takes
    the window length `period` as a parameter: `AsWrittenPeriod` is what the
    code does, and `IntendedPeriod` (30 days in milliseconds) is what the
    variable name `daysSinceLastReset` and the monthly quota message mean. */
module QuotaLedger {
  import opened Results
  import opened Store

  /** The threshold as written: 30, compared against milliseconds. */
  const AsWrittenPeriod: int := 30

  /** Thirty days, in milliseconds. */
  const IntendedPeriod: int := 30 * 24 * 3600 * 1000

  /** `findUniqueOrThrow` found no quota row for the user. */
  datatype QuotaError = NotFound

  /** Whether the call was admitted, and the quota row after the call. */
  datatype Decision = Decision(admitted: bool, record: ApiQuota)

  /** One call of the quota check on a row that exists. */
  function Admit(period: int, q: ApiQuota, now: int, deduct: bool): (d: Decision)
    // an expired window always admits, whatever the counter says
    ensures now - q.lastResetDate >= period ==> d.admitted
    // ... and, when deducting, restarts the window with this call counted
    ensures now - q.lastResetDate >= period && deduct ==>
      d.record == q.(requestsUsed := 1, lastResetDate := now)
    // a denial happens exactly inside the window at the cap
    ensures !d.admitted <==> now - q.lastResetDate < period && q.requestsUsed >= q.maxRequests
    ensures !d.admitted ==> d.record == q
    // an admission inside the window with deduction counts exactly one request
    ensures now - q.lastResetDate < period && d.admitted && deduct ==>
      d.record == q.(requestsUsed := q.requestsUsed + 1)
    // a call that does not deduct never writes
    ensures !deduct ==> d.record == q
    // the owner, the key and the cap are never written
    ensures d.record.userId == q.userId && d.record.secretKey == q.secretKey
    ensures d.record.maxRequests == q.maxRequests
  {
    var elapsed := now - q.lastResetDate;
    if elapsed >= period then
      if deduct then Decision(true, q.(lastResetDate := now, requestsUsed := 1))
      else Decision(true, q)
    else if q.requestsUsed >= q.maxRequests then Decision(false, q)
    else if deduct then Decision(true, q.(requestsUsed := q.requestsUsed + 1))
    else Decision(true, q)
  }

  /** `checkAndUpdateQuota(userId, deduct)` against the whole table: a missing
      row raises, otherwise only that user's row may change. */
  function CheckAndUpdateQuota(period: int, quotas: map<string, ApiQuota>, userId: string,
                               now: int, deduct: bool): (r: Result<(bool, map<string, ApiQuota>), QuotaError>)
    ensures userId !in quotas <==> r == Failure(NotFound)
    ensures r.Success? ==>
      && r.value.1.Keys == quotas.Keys
      && r.value.1 == quotas[userId := Admit(period, quotas[userId], now, deduct).record]
      && r.value.0 == Admit(period, quotas[userId], now, deduct).admitted
    ensures r.Success? && (!deduct || !r.value.0) ==> r.value.1 == quotas
  {
    if userId !in quotas then Failure(NotFound)
    else
      var d := Admit(period, quotas[userId], now, deduct);
      Success((d.admitted, quotas[userId := d.record]))
  }

  /** The row invariant: a non-negative counter that does not exceed a
      positive cap. */
  predicate WellFormed(q: ApiQuota) {
    0 <= q.requestsUsed <= q.maxRequests && q.maxRequests > 0
  }

  /** Every call keeps the row invariant, and with a non-negative period the
      window start never moves backwards. */
  lemma AdmitPreservesWellFormed(period: int, q: ApiQuota, now: int, deduct: bool)
    requires WellFormed(q)
    ensures WellFormed(Admit(period, q, now, deduct).record)
    ensures period >= 0 ==> Admit(period, q, now, deduct).record.lastResetDate >= q.lastResetDate
  {
  }

  /** A sequence of deducting calls at the given times, in order: which were
      admitted, and the row at the end. */
  function Replay(period: int, q: ApiQuota, times: seq<int>): (r: (seq<bool>, ApiQuota))
    ensures |r.0| == |times|
    decreases |times|
  {
    if |times| == 0 then ([], q)
    else
      var d := Admit(period, q, times[0], true);
      var rest := Replay(period, d.record, times[1..]);
      ([d.admitted] + rest.0, rest.1)
  }

  function CountAdmitted(admitted: seq<bool>): nat
    decreases |admitted|
  {
    if |admitted| == 0 then 0
    else (if admitted[0] then 1 else 0) + CountAdmitted(admitted[1..])
  }

  function Min(a: int, b: int): int {
    if a <= b then a else b
  }

  /** Inside one window, deducting calls are admitted exactly while the
      counter is below the cap: the i-th call is admitted iff
      `requestsUsed + i < maxRequests`, and the window start does not move. */
  lemma {:induction false} InWindowAdmitsUpToCap(period: int, q: ApiQuota, times: seq<int>)
    requires q.requestsUsed >= 0
    requires forall i :: 0 <= i < |times| ==> times[i] - q.lastResetDate < period
    ensures forall i :: 0 <= i < |times| ==>
      (Replay(period, q, times).0[i] <==> q.requestsUsed + i < q.maxRequests)
    ensures Replay(period, q, times).1 ==
      q.(requestsUsed := if q.requestsUsed >= q.maxRequests then q.requestsUsed
                         else Min(q.requestsUsed + |times|, q.maxRequests))
    ensures CountAdmitted(Replay(period, q, times).0) ==
      if q.requestsUsed >= q.maxRequests then 0 else Min(|times|, q.maxRequests - q.requestsUsed)
    decreases |times|
  {
    if |times| > 0 {
      var d := Admit(period, q, times[0], true);
      var rest := Replay(period, d.record, times[1..]);
      assert d.record.lastResetDate == q.lastResetDate;
      InWindowAdmitsUpToCap(period, d.record, times[1..]);
      assert Replay(period, q, times).0 == [d.admitted] + rest.0;
      forall i | 0 <= i < |times|
        ensures Replay(period, q, times).0[i] <==> q.requestsUsed + i < q.maxRequests
      {
        if i > 0 {
          assert Replay(period, q, times).0[i] == rest.0[i - 1];
        }
      }
      assert CountAdmitted([d.admitted] + rest.0) == (if d.admitted then 1 else 0) + CountAdmitted(rest.0) by {
        assert ([d.admitted] + rest.0)[1..] == rest.0;
      }
    }
  }

  /** Starting from an unused row, inside the window exactly the first
      `maxRequests` calls are admitted and every later one is denied. */
  lemma {:induction false} FreshRowAdmitsExactlyCap(period: int, q: ApiQuota, times: seq<int>)
    requires q.requestsUsed == 0 && q.maxRequests >= 0
    requires forall i :: 0 <= i < |times| ==> times[i] - q.lastResetDate < period
    ensures forall i :: 0 <= i < |times| ==>
      (Replay(period, q, times).0[i] <==> i < q.maxRequests)
    ensures CountAdmitted(Replay(period, q, times).0) == Min(|times|, q.maxRequests)
  {
    InWindowAdmitsUpToCap(period, q, times);
  }

  /** Calls spaced so that each arrives at least `period` after the previous
      one (the first at least `period` after the last reset) are all admitted,
      whatever the cap. */
  lemma {:induction false} SpacedCallsAlwaysAdmitted(period: int, q: ApiQuota, times: seq<int>)
    requires |times| > 0 ==> times[0] - q.lastResetDate >= period
    requires forall i :: 0 < i < |times| ==> times[i] - times[i - 1] >= period
    ensures forall i :: 0 <= i < |Replay(period, q, times).0| ==> Replay(period, q, times).0[i]
    ensures CountAdmitted(Replay(period, q, times).0) == |times|
    decreases |times|
  {
    if |times| > 0 {
      var d := Admit(period, q, times[0], true);
      var rest := Replay(period, d.record, times[1..]);
      assert d.record.lastResetDate == times[0];
      SpacedCallsAlwaysAdmitted(period, d.record, times[1..]);
      assert Replay(period, q, times).0 == [true] + rest.0;
      assert ([true] + rest.0)[1..] == rest.0;
    }
  }

  /** As written, the cap does not bind: a user whose cap is already used up
      is admitted again by every call made 30 ms after the previous one, so
      `n` such calls are all admitted however small `maxRequests` is. */
  lemma {:induction false} AsWrittenWindowBypass(q: ApiQuota, times: seq<int>)
    requires q.requestsUsed >= q.maxRequests
    requires |times| > 0 ==> times[0] - q.lastResetDate >= AsWrittenPeriod
    requires forall i :: 0 < i < |times| ==> times[i] - times[i - 1] >= AsWrittenPeriod
    ensures CountAdmitted(Replay(AsWrittenPeriod, q, times).0) == |times|
  {
    SpacedCallsAlwaysAdmitted(AsWrittenPeriod, q, times);
  }

  /** With the intended 30-day window, the calls of one window starting from
      a fresh row admit at most `maxRequests`: exactly the first ones. */
  lemma {:induction false} IntendedWindowCapsAdmissions(q: ApiQuota, times: seq<int>)
    requires q.requestsUsed == 0 && q.maxRequests >= 0
    requires forall i :: 0 <= i < |times| ==> q.lastResetDate <= times[i] < q.lastResetDate + IntendedPeriod
    ensures CountAdmitted(Replay(IntendedPeriod, q, times).0) <= q.maxRequests
    ensures forall i :: 0 <= i < |times| ==>
      (Replay(IntendedPeriod, q, times).0[i] <==> i < q.maxRequests)
  {
    FreshRowAdmitsExactlyCap(IntendedPeriod, q, times);
  }

  /** The two periods disagree on a row at its cap 30 ms after its reset. */
  lemma PeriodsDisagreeAtCap(q: ApiQuota, now: int)
    requires q.requestsUsed >= q.maxRequests
    requires AsWrittenPeriod <= now - q.lastResetDate < IntendedPeriod
    ensures Admit(AsWrittenPeriod, q, now, true).admitted
    ensures !Admit(IntendedPeriod, q, now, true).admitted
  {
  }
}
