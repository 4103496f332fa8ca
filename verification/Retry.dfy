/** withRetry of apps/web/src/lib/utils/RetryUtils.ts: exponential backoff in base 3. */
module Retry {
  import opened Wrappers

  function Pow3(n: nat): (p: nat)
    ensures p >= 1
  {
    if n == 0 then 1 else 3 * Pow3(n - 1)
  }

  /** The pauses after the first `n` failures. */
  function Delays(backoffMs: int, n: nat): (d: seq<int>)
    ensures |d| == n
  {
    if n == 0 then [] else Delays(backoffMs, n - 1) + [backoffMs * Pow3(n - 1)]
  }

  function Total(delays: seq<int>): int {
    if delays == [] then 0 else Total(delays[..|delays| - 1]) + delays[|delays| - 1]
  }

  lemma Threefold(b: int, p: int)
    ensures b * (3 * p - 1) == b * (p - 1) + 2 * (b * p)
  {
    assert b * (3 * p - 1) == b * (p - 1) + b * (2 * p);
    assert b * (2 * p) == 2 * (b * p);
  }

  /** Before call `n` + 1 the waiting adds up to backoffMs * (3^n - 1) / 2. */
  lemma {:induction false} WaitedBeforeCall(backoffMs: int, n: nat)
    ensures 2 * Total(Delays(backoffMs, n)) == backoffMs * (Pow3(n) - 1)
  {
    if n > 0 {
      hide Total, Pow3;
      WaitedBeforeCall(backoffMs, n - 1);
      var d := Delays(backoffMs, n);
      assert d[..n - 1] == Delays(backoffMs, n - 1) && d[n - 1] == backoffMs * Pow3(n - 1);
      TotalLast(d);
      PowerStep(n);
      Threefold(backoffMs, Pow3(n - 1));
    }
  }

  lemma TotalLast(d: seq<int>)
    requires d != []
    ensures Total(d) == Total(d[..|d| - 1]) + d[|d| - 1]
  {
  }

  lemma PowerStep(n: nat)
    requires n > 0
    ensures Pow3(n) == 3 * Pow3(n - 1)
  {
  }

  predicate AllFail<T, E>(fn: nat -> Result<T, E>, n: nat) {
    forall k | 0 <= k < n :: fn(k).Err?
  }

  /** The calls made by a run that stops at the first success or after `retries` + 1 calls. */
  predicate StopsAt<T, E>(fn: nat -> Result<T, E>, retries: int, calls: nat) {
    && calls <= (if retries < 0 then 0 else retries + 1)
    && AllFail(fn, if calls == 0 then 0 else calls - 1)
    && (calls < (if retries < 0 then 0 else retries + 1) ==> calls > 0 && fn(calls - 1).Ok?)
  }

  /**
   * `fn(k)` is the outcome of call k. The result is the first success, or the last error,
   * or no error at all when `retries` is negative and nothing is ever called; onRetry is
   * told attempt 1, 2, ... with the error just seen.
   */
  method WithRetry<T, E>(fn: nat -> Result<T, E>, retries: int, backoffMs: int)
    returns (r: Result<T, Option<E>>, calls: nat, waits: seq<int>, told: seq<(nat, E)>)
    ensures StopsAt(fn, retries, calls)
    ensures r.Ok? <==> exists k: nat | k <= retries :: fn(k).Ok?
    ensures r.Ok? ==> calls > 0 && fn(calls - 1) == Ok(r.value)
    ensures r.Err? ==> AllFail(fn, calls) && r.error == if calls == 0 then None else Some(fn(calls - 1).error)
    ensures waits == Delays(backoffMs, if calls == 0 then 0 else calls - 1)
    ensures |told| == |waits| && forall k | 0 <= k < |told| :: fn(k) == Err(told[k].1) && told[k].0 == k + 1
  {
    var lastError: Option<E> := None;
    waits, told := [], [];
    var i := 0;
    while i <= retries
      invariant 0 <= i && (i > 0 ==> i <= retries + 1)
      invariant AllFail(fn, i)
      invariant lastError == if i == 0 then None else Some(fn(i - 1).error)
      invariant waits == Delays(backoffMs, if i <= retries then i else if i == 0 then 0 else i - 1)
      invariant |told| == |waits| && forall k | 0 <= k < |told| :: fn(k) == Err(told[k].1) && told[k].0 == k + 1
    {
      match fn(i) {
        case Ok(value) => return Ok(value), i + 1, waits, told;
        case Err(error) =>
          lastError := Some(error);
          if i < retries {
            told := told + [(i + 1, error)];
            waits := waits + [backoffMs * Pow3(i)];
          }
      }
      i := i + 1;
    }
    return Err(lastError), i, waits, told;
  }

  /** The number of calls is determined: the index of the first success plus one, or retries + 1. */
  lemma CallsDetermined<T, E>(fn: nat -> Result<T, E>, retries: nat, calls: nat, first: nat)
    requires StopsAt(fn, retries, calls) && AllFail(fn, first) && (first <= retries ==> fn(first).Ok?)
    ensures calls == if first <= retries then first + 1 else retries + 1
  {
  }
}
