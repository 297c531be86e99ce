/** The process-wide quote throttle and its retry loop (app/orders.py). Time is the monotonic
    clock; what the broker answers, how long it takes and how far a sleep overshoots are inputs. */
module Throttle {
  import opened Nums

  const MIN_INTERVAL := 1.05
  const BASE_DELAY := 1.0
  const CAP_DELAY := 8.0

  datatype Outcome = Returned | Rejected | Retryable

  /** The broker's answer to one attempt: how it ended, how long it took, the random jitter
      drawn for the back-off after it and how far that sleep overshot. */
  datatype Attempt = Attempt(outcome: Outcome, duration: real, jitter: real, overshoot: real) {
    ghost predicate Valid() { duration >= 0.0 && 0.0 <= jitter <= 0.1 && overshoot >= 0.0 }
  }

  function Pow2(n: nat): (p: int)
    ensures p >= 1
  {
    if n == 0 then 1 else 2 * Pow2(n - 1)
  }

  function Delay(attempt: nat): real {
    Min(CAP_DELAY, BASE_DELAY * Pow2(attempt) as real)
  }

  lemma DelayAtLeastBase(attempt: nat)
    ensures 1.0 <= Delay(attempt) <= 8.0
  {
  }

  /** The back-off doubles from a second on, up to eight. */
  lemma DelayDoubles(attempt: nat)
    ensures Delay(0) == 1.0 && Delay(attempt + 1) == Min(8.0, 2.0 * Delay(attempt))
  {
  }

  ghost predicate AllValid(script: seq<Attempt>) {
    forall i :: 0 <= i < |script| ==> script[i].Valid()
  }

  /** The sleep after a failed attempt. */
  function Pause(a: Attempt, attempt: nat): real {
    Delay(attempt) + a.jitter + a.overshoot
  }

  /** Consecutive starts are at least a second apart. */
  ghost predicate Spaced(starts: seq<real>) {
    forall i :: 0 < i < |starts| ==> starts[i] - starts[i - 1] >= 1.0
  }

  /** Call, retrying on retryable errors at most `maxRetries` times. `starts` are the moments
      the attempts were sent, `clock` the moment the call ended. */
  method BackoffCall(now: real, script: seq<Attempt>, maxRetries: nat)
    returns (starts: seq<real>, clock: real, ok: bool)
    requires |script| > maxRetries && AllValid(script)
    ensures 1 <= |starts| <= maxRetries + 1 && starts[0] == now
    ensures Spaced(starts) && clock >= starts[|starts| - 1]
    ensures forall i :: 0 < i < |starts| ==> starts[i] == starts[i - 1] + script[i - 1].duration + Pause(script[i - 1], i - 1)
    ensures clock == starts[|starts| - 1] + script[|starts| - 1].duration
    ensures forall i :: 0 <= i < |starts| - 1 ==> script[i].outcome == Retryable
    ensures ok <==> script[|starts| - 1].outcome == Returned
    ensures |starts| <= maxRetries ==> script[|starts| - 1].outcome != Retryable
  {
    clock, starts := now, [];
    for attempt := 0 to maxRetries + 1
      invariant |starts| == attempt && (attempt == 0 ==> clock == now)
      invariant attempt > 0 ==> starts[0] == now
                                && clock == starts[attempt - 1] + script[attempt - 1].duration + Pause(script[attempt - 1], attempt - 1)
      invariant forall i :: 0 < i < attempt ==> starts[i] == starts[i - 1] + script[i - 1].duration + Pause(script[i - 1], i - 1)
      invariant forall i :: 0 <= i < attempt ==> script[i].outcome == Retryable
      invariant attempt <= maxRetries
    {
      starts := starts + [clock];
      var answer := script[attempt];
      clock := clock + answer.duration;
      if answer.outcome != Retryable || attempt == maxRetries {
        forall i | 0 < i < |starts|
          ensures starts[i] - starts[i - 1] >= 1.0
        {
          DelayAtLeastBase(i - 1);
          assert script[i - 1].Valid();
        }
        return starts, clock, answer.outcome == Returned;
      }
      clock := clock + Pause(answer, attempt);
    }
    assert false;
  }

  /** One throttled call: when it got the lock, how far its first sleep overshot, the broker's
      answers, and how long after the call the clock was read again. */
  datatype Request = Request(arrival: real, overshoot: real, script: seq<Attempt>, tail: real) {
    ghost predicate Valid() {
      overshoot >= 0.0 && |script| > 3 && AllValid(script) && tail >= 0.0
    }
  }

  class QuoteThrottle {
    var lastQuoteTs: real
    ghost var sent: seq<real>

    /** Every attempt ever sent ended before the recorded timestamp, and all are spaced out. */
    ghost predicate Valid()
      reads this
    {
      Spaced(sent) && (sent != [] ==> sent[|sent| - 1] <= lastQuoteTs)
    }

    constructor ()
      ensures Valid() && sent == [] && lastQuoteTs == 0.0
    {
      lastQuoteTs, sent := 0.0, [];
    }

    /** Serialised by the lock: the clock read on entry is not before the one read on the last exit. */
    method ThrottledCall(r: Request) returns (starts: seq<real>, ok: bool)
      requires Valid() && r.Valid() && r.arrival >= lastQuoteTs
      modifies this
      ensures Valid() && sent == old(sent) + starts
      ensures 1 <= |starts| <= 4 && starts[0] - old(lastQuoteTs) >= MIN_INTERVAL
      ensures starts[0] == if r.arrival - old(lastQuoteTs) >= MIN_INTERVAL then r.arrival else old(lastQuoteTs) + MIN_INTERVAL + r.overshoot
      ensures lastQuoteTs == starts[|starts| - 1] + r.script[|starts| - 1].duration + r.tail
      ensures forall i :: 0 <= i < |starts| - 1 ==> r.script[i].outcome == Retryable
      ensures |starts| <= 3 ==> r.script[|starts| - 1].outcome != Retryable
      ensures ok <==> r.script[|starts| - 1].outcome == Returned
    {
      var wait := MIN_INTERVAL - (r.arrival - lastQuoteTs);
      var clock := r.arrival;
      if wait > 0.0 {
        clock := clock + wait + r.overshoot;
      }
      starts, clock, ok := BackoffCall(clock, r.script, 3);
      lastQuoteTs := clock + r.tail;
      SpacedConcat(sent, starts);
      sent := sent + starts;
    }
  }

  lemma SpacedConcat(a: seq<real>, b: seq<real>)
    requires Spaced(a) && Spaced(b)
    requires a != [] && b != [] ==> b[0] - a[|a| - 1] >= 1.0
    ensures Spaced(a + b)
  {
  }

  /** Spacing is quantitative: between any two attempts lies a second for each attempt in between,
      so a window of `t` seconds never holds more than `t + 1` of them. */
  lemma {:induction false} WindowHolds(sent: seq<real>, i: nat, j: nat)
    requires Spaced(sent) && i <= j < |sent|
    ensures sent[j] - sent[i] >= (j - i) as real
  {
    if i < j {
      WindowHolds(sent, i, j - 1);
      assert sent[j] - sent[j - 1] >= 1.0;
    }
  }

  /** Any run of requests through one throttle: at most one attempt a second, at most four
      attempts a request, whatever the broker answers. */
  method Drive(requests: seq<Request>, pauses: seq<real>) returns (throttle: QuoteThrottle)
    requires |pauses| == |requests| && forall i :: 0 <= i < |pauses| ==> pauses[i] >= 0.0
    requires forall i :: 0 <= i < |requests| ==> requests[i].Valid()
    ensures fresh(throttle) && |requests| <= |throttle.sent| <= 4 * |requests|
    ensures forall i, j :: 0 <= i <= j < |throttle.sent| ==> throttle.sent[j] - throttle.sent[i] >= (j - i) as real
  {
    throttle := new QuoteThrottle();
    for k := 0 to |requests|
      invariant throttle.Valid() && k <= |throttle.sent| <= 4 * k
    {
      var r := requests[k].(arrival := throttle.lastQuoteTs + pauses[k]);
      var starts, ok := throttle.ThrottledCall(r);
    }
    forall i, j | 0 <= i <= j < |throttle.sent|
      ensures throttle.sent[j] - throttle.sent[i] >= (j - i) as real
    {
      WindowHolds(throttle.sent, i, j);
    }
  }
}
