/** Bounded retry of one source request. */
module Retry {
  import opened Text

  datatype Attempt<+R> =
    | Answered(response: R)
    | OsError
    | SourceError(status: Option<int>, code: string, retryAfter: Option<real>)

  predicate PermissionDenied<R>(a: Attempt<R>) {
    a.SourceError? && (a.status == Some(401) || a.status == Some(403))
  }

  predicate RetryableStatus(status: int) {
    status == 408 || status == 409 || status == 425 || status == 429 || 500 <= status <= 599
  }

  /** Worth another call: a network error, a transient status, or a transient code. */
  predicate Retryable<R>(a: Attempt<R>) {
    || a.OsError?
    || (a.SourceError? && ((a.status.Some? && RetryableStatus(a.status.value)) || a.code == "network_error" || a.code == "timeout")
        && !PermissionDenied(a))
  }

  datatype Warning = Denied | Failed | FailedAfterRetries | Retried(attempt: nat)

  /** The last warning of a request that got no answer. */
  function Refusal<R>(a: Attempt<R>): Warning {
    if PermissionDenied(a) then Denied else if Retryable(a) then FailedAfterRetries else Failed
  }

  const MAX_BACKOFF := 2.0

  function Doubled(n: nat): (d: real)
    ensures d >= 0.25
  {
    if n == 0 then 0.25 else 2.0 * Doubled(n - 1)
  }

  lemma {:induction false} DoubledGrows(n: nat)
    requires n >= 3
    ensures Doubled(n) >= MAX_BACKOFF
  {
    if n > 3 {
      DoubledGrows(n - 1);
    } else {
      assert Doubled(1) == 0.5 && Doubled(2) == 1.0;
    }
  }

  /** `min(0.25 * 2 ** (retry_count - 1), 2.0)`: a quarter, a half, one, and then always two seconds. */
  function Backoff(retryCount: nat): (d: real)
    ensures d == if retryCount <= 1 then 0.25 else if retryCount == 2 then 0.5 else if retryCount == 3 then 1.0 else MAX_BACKOFF
  {
    assert Doubled(1) == 0.5 && Doubled(2) == 1.0;
    assert retryCount > 3 ==> Doubled(retryCount - 1) >= MAX_BACKOFF by {
      if retryCount > 3 { DoubledGrows(retryCount - 1); }
    }
    var d := Doubled(if retryCount > 0 then retryCount - 1 else 0);
    if d < MAX_BACKOFF then d else MAX_BACKOFF
  }

  function Delay<R>(a: Attempt<R>, retryCount: nat): real {
    if a.SourceError? && a.retryAfter.Some? then a.retryAfter.value else Backoff(retryCount)
  }

  function AllowedRetries(maxRetries: int): nat {
    if maxRetries > 0 then maxRetries else 0
  }

  /** Calls made from the `retryCount`-th on: until one meets something else than a retryable failure, or the retries are
      used up. */
  function Calls<R(!new)>(attempts: nat -> Attempt<R>, maxRetries: int, retryCount: nat): (calls: nat)
    requires retryCount <= AllowedRetries(maxRetries)
    ensures retryCount < calls <= AllowedRetries(maxRetries) + 1
    ensures forall k: nat :: retryCount <= k < calls - 1 ==> Retryable(attempts(k))
    ensures Retryable(attempts(calls - 1)) ==> calls == AllowedRetries(maxRetries) + 1
    decreases AllowedRetries(maxRetries) - retryCount
  {
    if Retryable(attempts(retryCount)) && retryCount < maxRetries then Calls(attempts, maxRetries, retryCount + 1) else retryCount + 1
  }

  function TotalCalls<R(!new)>(attempts: nat -> Attempt<R>, maxRetries: int): nat {
    Calls(attempts, maxRetries, 0)
  }

  /** What the last call met decides the request. */
  function Last<R(!new)>(attempts: nat -> Attempt<R>, maxRetries: int): Attempt<R> {
    attempts(TotalCalls(attempts, maxRetries) - 1)
  }

  function Answer<R(!new)>(attempts: nat -> Attempt<R>, maxRetries: int): Option<R> {
    if Last(attempts, maxRetries).Answered? then Some(Last(attempts, maxRetries).response) else None
  }

  function RetryNotes(count: nat): (notes: seq<Warning>)
    ensures |notes| == count && forall k :: 0 <= k < count ==> notes[k] == Retried(k + 1)
  {
    if count == 0 then [] else RetryNotes(count - 1) + [Retried(count)]
  }

  /** One note per retry; an outright refusal replaces the notes collected before it. */
  function Warnings<R(!new)>(attempts: nat -> Attempt<R>, maxRetries: int): seq<Warning> {
    var last, retries := Last(attempts, maxRetries), TotalCalls(attempts, maxRetries) - 1;
    if last.Answered? then RetryNotes(retries)
    else if Retryable(last) then RetryNotes(retries) + [FailedAfterRetries]
    else [Refusal(last)]
  }

  /** The request ends with the call that meets no retryable failure, or with the last one allowed. */
  lemma EndsHere<R(!new)>(attempts: nat -> Attempt<R>, maxRetries: int, retryCount: nat)
    requires retryCount <= AllowedRetries(maxRetries) && Calls(attempts, maxRetries, retryCount) == TotalCalls(attempts, maxRetries)
    requires !Retryable(attempts(retryCount)) || retryCount >= maxRetries
    ensures TotalCalls(attempts, maxRetries) == retryCount + 1 && Last(attempts, maxRetries) == attempts(retryCount)
  {
  }

  /** `attempts(k)` is what the `k`-th call meets. At most `maxRetries + 1` calls; every call but the last met something
      retryable; a sleep before each retry. */
  method RequestWithRetry<R(!new)>(attempts: nat -> Attempt<R>, maxRetries: int)
    returns (response: Option<R>, warnings: seq<Warning>, calls: nat, delays: seq<real>)
    ensures calls == TotalCalls(attempts, maxRetries) && 1 <= calls <= AllowedRetries(maxRetries) + 1
    ensures response == Answer(attempts, maxRetries) && warnings == Warnings(attempts, maxRetries)
    ensures |delays| == calls - 1 && forall k: nat :: k < calls - 1 ==> delays[k] == Delay(attempts(k), k + 1)
  {
    warnings, delays := [], [];
    var retryCount: nat := 0;
    while true
      invariant retryCount <= AllowedRetries(maxRetries)
      invariant Calls(attempts, maxRetries, retryCount) == TotalCalls(attempts, maxRetries)
      invariant warnings == RetryNotes(retryCount) && |delays| == retryCount
      invariant forall k: nat :: k < retryCount ==> delays[k] == Delay(attempts(k), k + 1)
      decreases AllowedRetries(maxRetries) - retryCount
    {
      var attempt := attempts(retryCount);
      calls := retryCount + 1;
      if !Retryable(attempt) || retryCount >= maxRetries {
        EndsHere(attempts, maxRetries, retryCount);
      }
      if attempt.Answered? {
        response := Some(attempt.response);
        return;
      }
      if PermissionDenied(attempt) {
        return None, [Denied], calls, delays;
      }
      if !Retryable(attempt) {
        return None, [Failed], calls, delays;
      }
      if retryCount >= maxRetries {
        return None, warnings + [FailedAfterRetries], calls, delays;
      }
      retryCount := retryCount + 1;
      warnings := warnings + [Retried(retryCount)];
      delays := delays + [Delay(attempt, retryCount)];
    }
  }

  /** A second call is made exactly when retries are allowed and the first call met a network error, or an error of the source with a
      transient status or code, that is no refusal of permission. */
  lemma SecondCallIff<R(!new)>(attempts: nat -> Attempt<R>, maxRetries: int)
    ensures TotalCalls(attempts, maxRetries) > 1 <==>
            maxRetries > 0 &&
            match attempts(0)
            case Answered(_) => false
            case OsError => true
            case SourceError(status, code, _) =>
              && status != Some(401) && status != Some(403)
              && (code == "network_error" || code == "timeout"
                  || (status.Some? && (status.value in {408, 409, 425, 429} || 500 <= status.value < 600)))
  {
  }

  /** A delay is the one the source asks for, and the backoff otherwise. */
  lemma DelayIs<R>(a: Attempt<R>, retryCount: nat)
    ensures Delay(a, retryCount) == match a
                                    case SourceError(_, _, Some(asked)) => asked
                                    case _ => Backoff(retryCount)
  {
  }

  /** What a request that failed warns of: a refusal of permission or another failure that is not retried alone, without the retries before
      it, and the used-up retries after a note for each. */
  lemma WarningsIff<R(!new)>(attempts: nat -> Attempt<R>, maxRetries: int)
    ensures var last, warnings := attempts(TotalCalls(attempts, maxRetries) - 1), Warnings(attempts, maxRetries);
            && (last.Answered? ==> |warnings| == TotalCalls(attempts, maxRetries) - 1)
            && (warnings == [Denied] <==> last.SourceError? && (last.status == Some(401) || last.status == Some(403)))
            && (FailedAfterRetries in warnings <==> Retryable(last))
            && (Failed in warnings <==> warnings == [Failed])
  {
    assert Denied !in RetryNotes(TotalCalls(attempts, maxRetries) - 1);
    assert Failed !in RetryNotes(TotalCalls(attempts, maxRetries) - 1);
    assert FailedAfterRetries !in RetryNotes(TotalCalls(attempts, maxRetries) - 1);
    assert [Failed][0] == Failed && [Denied][0] == Denied;
  }

  /** A request gets no answer exactly when it meets a failure that is not worth a retry, before any answer, or when the
      first `maxRetries + 1` calls all meet failures that are. */
  lemma {:induction false} NoAnswerIff<R(!new)>(attempts: nat -> Attempt<R>, maxRetries: int)
    ensures Answer(attempts, maxRetries).None? <==>
            || (forall k: nat :: k <= AllowedRetries(maxRetries) ==> Retryable(attempts(k)))
            || (exists k: nat :: FailsAt(attempts, maxRetries, k))
  {
    var calls := TotalCalls(attempts, maxRetries);
    assert !attempts(calls - 1).Answered? && !Retryable(attempts(calls - 1)) ==> FailsAt(attempts, maxRetries, calls - 1);
    if k: nat :| FailsAt(attempts, maxRetries, k) {
      FailureIsLast(attempts, maxRetries, k);
    }
  }

  lemma FailureIsLast<R(!new)>(attempts: nat -> Attempt<R>, maxRetries: int, k: nat)
    requires FailsAt(attempts, maxRetries, k)
    ensures TotalCalls(attempts, maxRetries) == k + 1
  {
    var last: nat := TotalCalls(attempts, maxRetries) - 1;
    var met := attempts(last);
    assert last < k ==> Retryable(met);
  }

  ghost predicate FailsAt<R(!new)>(attempts: nat -> Attempt<R>, maxRetries: int, k: nat) {
    && k <= AllowedRetries(maxRetries)
    && !attempts(k).Answered? && !Retryable(attempts(k))
    && forall j: nat :: j < k ==> Retryable(attempts(j))
  }
}
