/**
 * `callWithRetry` of services/geminiService.ts: up to `retries` calls of a failing service,
 * with a doubling wait after each failure. The service is an oracle: `fn(j)` is what the
 * `j`-th call (counting from zero) returns; waits are recorded as their lengths in ms.
 */
module Retry {
  import opened Wrappers

  const DefaultRetries: nat := 3
  const DefaultBaseDelay: nat := 2000

  function Pow2(n: nat): (p: nat)
    ensures p >= 1
  {
    if n == 0 then 1 else 2 * Pow2(n - 1)
  }

  /** The wait after failed attempt `i`: `baseDelay * 2^i`. */
  function Delay(baseDelay: nat, i: nat): nat {
    baseDelay * Pow2(i)
  }

  function Total(waits: seq<nat>): nat {
    if waits == [] then 0 else Total(waits[..|waits| - 1]) + waits[|waits| - 1]
  }

  /**
   * `callWithRetry(fn, retries, baseDelay)`: the result (or the last error, none at all when
   * `retries` is 0), the number of calls made and the waits made.
   */
  method CallWithRetry<T>(fn: nat -> Result<T, string>, retries: nat, baseDelay: nat)
    returns (r: Result<T, Option<string>>, calls: nat, waits: seq<nat>)
    ensures calls <= retries
    ensures forall j :: 0 <= j < |waits| ==> fn(j).Failure? && waits[j] == Delay(baseDelay, j)
    ensures r.Success? ==> calls == |waits| + 1 && fn(|waits|) == Success(r.value)
    ensures r.Failure? ==> calls == retries == |waits|
    ensures r.Failure? ==> r.error == (if retries == 0 then None else Some(fn(retries - 1).error))
  {
    var lastError: Option<string> := None;
    waits := [];
    var i := 0;
    while i < retries
      invariant 0 <= i <= retries && |waits| == i
      invariant forall j :: 0 <= j < i ==> fn(j).Failure? && waits[j] == Delay(baseDelay, j)
      invariant lastError == (if i == 0 then None else Some(fn(i - 1).error))
    {
      var attempt := fn(i);
      if attempt.Success? {
        return Success(attempt.value), i + 1, waits;
      }
      lastError := Some(attempt.error);
      waits := waits + [baseDelay * Pow2(i)];
      i := i + 1;
    }
    return Failure(lastError), retries, waits;
  }

  /** Exponential backoff: the waits of `n` failed attempts add up to `baseDelay * (2^n - 1)`. */
  lemma {:induction false} BackoffTotal(waits: seq<nat>, baseDelay: nat)
    requires forall j :: 0 <= j < |waits| ==> waits[j] == Delay(baseDelay, j)
    ensures Total(waits) == baseDelay * (Pow2(|waits|) - 1)
  {
    if waits != [] {
      var n := |waits| - 1;
      var front := waits[..n];
      assert forall j :: 0 <= j < |front| ==> front[j] == waits[j];
      BackoffTotal(front, baseDelay);
      calc {
        Total(waits);
        Total(front) + waits[n];
        baseDelay * (Pow2(n) - 1) + baseDelay * Pow2(n);
        baseDelay * (2 * Pow2(n) - 1);
      }
    }
  }

  /** With the defaults, three failures wait 2 s, 4 s and 8 s: 14 s in all. */
  lemma DefaultBackoff(waits: seq<nat>)
    requires |waits| == DefaultRetries
    requires forall j :: 0 <= j < |waits| ==> waits[j] == Delay(DefaultBaseDelay, j)
    ensures waits == [2000, 4000, 8000] && Total(waits) == 14000
  {
    BackoffTotal(waits, DefaultBaseDelay);
    assert Pow2(3) == 8;
  }
}
