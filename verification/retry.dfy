/**
  Reply validation and the retrying decorator around every exchange request. A request
  is modelled by its attempts: `attempt(k)` is what the k-th call of the undecorated
  function returns or raises. The sleeps are recorded, not performed.
 */
module Retry {
  import opened Wrappers
  import opened Json

  /** The configured retry budget (`API_RETRY` in the application settings). */
  const ApiRetryCount: int := 1

  /** The reply codes that validation lets through: success and two tolerated errors. */
  const AcceptedCodes: seq<int> := [0, 10001, 110043]

  /** The codes for which the decorator makes one immediate extra call. */
  const RepeatCodes: seq<int> := [110043, 10001]

  /** Seconds to sleep before a retry, given the retries left and the budget. */
  function CalculateBackoff(retryCount: int, maxRetries: int): (d: int)
    ensures d >= 1
    ensures retryCount == maxRetries ==> d == 1
  {
    (maxRetries - retryCount) * (maxRetries - retryCount) + 1
  }

  /** A reply has the envelope every exchange reply carries. */
  predicate WellFormed(response: Json) {
    response.Obj? && "retCode" in response.fields && "retMsg" in response.fields
  }

  /** Check a decoded reply: the envelope must be present and the code accepted. */
  function ValidateResponse(response: Json): (r: Result<(), Exc>)
    ensures r.Success? <==> WellFormed(response) && InCodes(response.fields["retCode"], AcceptedCodes)
    ensures r.Failure? && !WellFormed(response) ==> r.error == ValueError
    ensures r.Failure? && WellFormed(response) ==>
      r.error == ApiError(response.fields["retCode"], response.fields["retMsg"])
  {
    if !WellFormed(response) then Failure(ValueError)
    else if !InCodes(response.fields["retCode"], AcceptedCodes) then
      Failure(ApiError(response.fields["retCode"], response.fields["retMsg"]))
    else Success(())
  }

  /** An API error that triggers the immediate extra call. */
  predicate IsRepeat(e: Exc) {
    e.ApiError? && InCodes(e.code, RepeatCodes)
  }

  lemma InCodesSubset(v: Json, small: seq<int>, big: seq<int>)
    requires forall k | 0 <= k < |small| :: small[k] in big
    requires InCodes(v, small)
    ensures InCodes(v, big)
  {
    var k :| 0 <= k < |small| && PyEq(v, Int(small[k]));
    var j :| 0 <= j < |big| && big[j] == small[k];
    assert PyEq(v, Int(big[j]));
  }

  /** Validation never raises an error carrying 10001 or 110043: the extra-call branch is dead. */
  lemma ValidateNeverRepeats(response: Json)
    ensures ValidateResponse(response).Failure? ==> !IsRepeat(ValidateResponse(response).error)
  {
    var r := ValidateResponse(response);
    if r.Failure? && r.error.ApiError? {
      if InCodes(r.error.code, RepeatCodes) {
        assert RepeatCodes[0] in AcceptedCodes && RepeatCodes[1] in AcceptedCodes;
        InCodesSubset(r.error.code, RepeatCodes, AcceptedCodes);
      }
    }
  }

  /** What one decorated call did: its outcome, how many calls it made and the sleeps between. */
  datatype Trace<T> = Trace(result: Result<T, Exc>, calls: nat, delays: seq<int>)

  /**
    The decorated call starting with call number `k` and `count` retries left. A success
    is returned; an API error with a repeat code is answered by one more call of the
    undecorated function, whatever it gives; another API error is retried after a
    backoff while retries remain and re-raised after; any other error is re-raised.
   */
  function Retrier<T>(attempt: nat -> Result<T, Exc>, count: int, maxRetries: int, k: nat): (t: Trace<T>)
    ensures 1 <= t.calls <= (if count > 0 then count else 0) + 2
    ensures |t.delays| <= (if count > 0 then count else 0)
    decreases if count > 0 then count else 0
  {
    var r := attempt(k);
    if r.Success? then Trace(r, 1, [])
    else if r.error.ApiError? && IsRepeat(r.error) then Trace(attempt(k + 1), 2, [])
    else if r.error.ApiError? && count > 0 then
      var rest := Retrier(attempt, count - 1, maxRetries, k + 1);
      Trace(rest.result, rest.calls + 1, [CalculateBackoff(count, maxRetries)] + rest.delays)
    else Trace(r, 1, [])
  }

  /** A first-attempt success is returned unchanged after a single call. */
  lemma RetrierFirstSuccess<T>(attempt: nat -> Result<T, Exc>, count: int, maxRetries: int, k: nat)
    requires attempt(k).Success?
    ensures Retrier(attempt, count, maxRetries, k) == Trace(attempt(k), 1, [])
  {
  }

  /** An error other than an API error is re-raised at once, with no retry. */
  lemma RetrierNoRetryOtherErrors<T>(attempt: nat -> Result<T, Exc>, count: int, maxRetries: int, k: nat)
    requires attempt(k).Failure? && !attempt(k).error.ApiError?
    ensures Retrier(attempt, count, maxRetries, k) == Trace(attempt(k), 1, [])
  {
  }

  /** Calls `k .. k+n-1` all fail with an API error that is not a repeat code. */
  predicate PlainApiFailures<T>(attempt: nat -> Result<T, Exc>, k: nat, n: nat) {
    forall j: nat | k <= j < k + n ::
      attempt(j).Failure? && attempt(j).error.ApiError? && !IsRepeat(attempt(j).error)
  }

  /**
    When every call fails with a plain API error, the decorator makes exactly `count + 1`
    calls, sleeps `count` times and re-raises the last error.
   */
  lemma {:induction false} RetrierExhausts<T>(attempt: nat -> Result<T, Exc>, count: nat, maxRetries: int, k: nat)
    requires PlainApiFailures(attempt, k, count + 1)
    ensures Retrier(attempt, count, maxRetries, k).result == attempt(k + count)
    ensures Retrier(attempt, count, maxRetries, k).calls == count + 1
    ensures |Retrier(attempt, count, maxRetries, k).delays| == count
    decreases count
  {
    assert attempt(k).Failure? && attempt(k).error.ApiError? && !IsRepeat(attempt(k).error) by {
      assert k <= k < k + count + 1;
    }
    if count > 0 {
      assert PlainApiFailures(attempt, k + 1, count) by {
        forall j: nat | k + 1 <= j < k + 1 + count
          ensures attempt(j).Failure? && attempt(j).error.ApiError? && !IsRepeat(attempt(j).error)
        {
          assert k <= j < k + count + 1;
        }
      }
      RetrierExhausts(attempt, count - 1, maxRetries, k + 1);
    }
  }

  /** With the full budget the retries wait 1, 2, 5, 10, ... seconds: (i)^2 + 1 for the i-th gap. */
  lemma RetrierBackoffGrows<T>(attempt: nat -> Result<T, Exc>, m: nat, k: nat)
    requires PlainApiFailures(attempt, k, m + 1)
    ensures |Retrier(attempt, m, m, k).delays| == m
    ensures forall i | 0 <= i < m :: Retrier(attempt, m, m, k).delays[i] == i * i + 1
  {
    RetrierExhausts(attempt, m, m, k);
    RetrierDelays(attempt, m, m, k);
  }

  /**
    When every error the undecorated function can raise comes from validation (or is not
    an API error), no call ever takes the repeat branch, so at most `count + 1` calls occur.
   */
  lemma {:induction false} RetrierNoRepeatBound<T>(attempt: nat -> Result<T, Exc>, count: int, maxRetries: int, k: nat)
    requires forall j: nat | j >= k :: attempt(j).Failure? ==> !IsRepeat(attempt(j).error)
    ensures Retrier(attempt, count, maxRetries, k).calls <= (if count > 0 then count else 0) + 1
    decreases if count > 0 then count else 0
  {
    var r := attempt(k);
    if r.Failure? && r.error.ApiError? && count > 0 {
      RetrierNoRepeatBound(attempt, count - 1, maxRetries, k + 1);
    }
  }

  /**
    Every sleep is the backoff for the retries left before it: the i-th sleep happens with
    `count - i` retries left, whatever the calls return.
   */
  lemma {:induction false} RetrierDelays<T>(attempt: nat -> Result<T, Exc>, count: int, maxRetries: int, k: nat)
    ensures forall i | 0 <= i < |Retrier(attempt, count, maxRetries, k).delays| ::
      Retrier(attempt, count, maxRetries, k).delays[i] == CalculateBackoff(count - i, maxRetries)
    decreases if count > 0 then count else 0
  {
    var r := attempt(k);
    if r.Failure? && !IsRepeat(r.error) && r.error.ApiError? && count > 0 {
      RetrierDelays(attempt, count - 1, maxRetries, k + 1);
      var t := Retrier(attempt, count, maxRetries, k);
      var rest := Retrier(attempt, count - 1, maxRetries, k + 1);
      assert t.delays == [CalculateBackoff(count, maxRetries)] + rest.delays;
      forall i | 0 < i < |t.delays| ensures t.delays[i] == CalculateBackoff(count - i, maxRetries) {
        assert t.delays[i] == rest.delays[i - 1];
      }
    }
  }
}
