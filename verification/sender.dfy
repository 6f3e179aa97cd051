/**
 One report's delivery loop (internal/agent/sender.go): classification of answers and the
 retry loop with its capped exponential backoff.
 */
module Senders {
  import opened Prelude

  /** What one attempt brings back. */
  datatype Answer = NoAnswer | Status(code: int)

  predicate Delivered(answer: Answer) {
    answer.Status? && 200 <= answer.code < 300
  }

  /** 401, 403, 404, 408, 425, 429, 5xx, and transport errors are worth another attempt. */
  predicate Retryable(answer: Answer) {
    answer.NoAnswer?
    || answer.code == 401 || answer.code == 403 || answer.code == 404
    || answer.code == 408 || answer.code == 425 || answer.code == 429
    || answer.code >= 500
  }

  datatype Outcome = Accepted | Refused(code: int) | Cancelled

  const FIRST_DELAY: Time := SECOND
  const MAX_DELAY: Time := 30 * SECOND

  /** rand.IntN(500) milliseconds stay below this. */
  const MAX_JITTER: Time := SECOND / 2

  function Power2(k: nat): nat {
    if k == 0 then 1 else 2 * Power2(k - 1)
  }

  /** The pause after the k-th failed attempt: 1, 2, 4, ... seconds, at most 30. */
  function Backoff(k: nat): Time {
    if Power2(k) * SECOND > MAX_DELAY then MAX_DELAY else Power2(k) * SECOND
  }

  /**
   sendWithRetry against a script of answers and the random jitter drawn after each; the script's end
   is the context being cancelled. The loop stops at the first answer that is not worth retrying, and
   its pauses double up to the cap, each a little longer by its jitter.
   */
  method SendWithRetry(script: seq<Answer>, jitter: seq<Time>) returns (outcome: Outcome, pauses: seq<Time>)
    requires |jitter| == |script| && forall j | j in jitter :: 0 <= j < MAX_JITTER
    ensures |pauses| <= |script|
    ensures forall k | 0 <= k < |pauses| ::
              script[k] == NoAnswer || script[k].code in {401, 403, 404, 408, 425, 429} || script[k].code >= 500
    ensures forall k | 0 <= k < |pauses| :: pauses[k] == Backoff(k) + jitter[k]
    ensures forall k | 0 <= k < |pauses| :: SECOND <= pauses[k] < 30 * SECOND + SECOND / 2
    ensures outcome.Cancelled? <==> |pauses| == |script|
    ensures !outcome.Cancelled? ==>
              && script[|pauses|].Status?
              && var code := script[|pauses|].code;
              && code !in {401, 403, 404, 408, 425, 429} && code < 500
              && outcome == if 200 <= code < 300 then Accepted else Refused(code)
  {
    var delay := FIRST_DELAY;
    pauses := [];
    while |pauses| < |script|
      invariant |pauses| <= |script|
      invariant forall k | 0 <= k < |pauses| :: Retryable(script[k]) && pauses[k] == Backoff(k) + jitter[k]
      invariant forall k | 0 <= k < |pauses| :: FIRST_DELAY <= pauses[k] < MAX_DELAY + MAX_JITTER
      invariant delay == Backoff(|pauses|) && FIRST_DELAY <= delay <= MAX_DELAY
    {
      var answer := script[|pauses|];
      if Delivered(answer) {
        return Accepted, pauses;
      }
      if !Retryable(answer) {
        return Refused(answer.code), pauses;
      }
      assert jitter[|pauses|] in jitter;
      pauses := pauses + [delay + jitter[|pauses|]];
      if delay < MAX_DELAY {
        delay := delay * 2;
      }
      if delay > MAX_DELAY {
        delay := MAX_DELAY;
      }
    }
    outcome := Cancelled;
  }

  lemma {:induction false} Power2Doubles(k: nat)
    ensures Power2(k) >= 1 && (k >= 5 ==> Power2(k) >= 32)
  {
    if k > 0 {
      Power2Doubles(k - 1);
    }
  }

  /** From the sixth pause on the backoff is the cap. */
  lemma BackoffIsCapped(k: nat)
    ensures SECOND <= Backoff(k) <= 30 * SECOND
    ensures k >= 5 <==> Backoff(k) == 30 * SECOND
  {
    Power2Doubles(k);
    if k < 5 {
      assert Power2(0) == 1 && Power2(1) == 2 && Power2(2) == 4 && Power2(3) == 8 && Power2(4) == 16;
    }
  }
}
