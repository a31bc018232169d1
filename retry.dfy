/** The bounded retry loop that wraps every fallible external call: the AI
    call per chunk (RetryCount attempts, RetryDelaySeconds apart) and the
    issue-creation call per ticket (3 attempts, 2 seconds apart).

    The fallible call is an oracle `op`: `op(k)` is what the call returns on
    attempt k + 1 (the Go loop counts attempts from 1, the oracle from 0).
    Sleeping is not observable; the delays the loop asks for are recorded in a
    ghost log. */
module Retry {
  import opened Models

  /** Reference definition: the outcome of attempts k + 1 .. n once attempts
      1 .. k have failed (the last with `last`), paired with the number of
      calls made by then. */
  function Retried<T>(op: nat -> Result<T>, n: int, k: nat, last: Option<Error>): (Result<T>, nat)
    decreases n - k
  {
    if k >= n then (Failure(Exhausted(n, last)), k)
    else
      match op(k)
      case Success(v) => (Success(v), k + 1)
      case Failure(e) => Retried(op, n, k + 1, Some(e))
  }

  /** What the retry loop returns when given `n` attempts. */
  function Outcome<T>(op: nat -> Result<T>, n: int): Result<T> {
    Retried(op, n, 0, None).0
  }

  /** How many times the loop calls the operation when given `n` attempts. */
  function Calls<T>(op: nat -> Result<T>, n: int): nat {
    Retried(op, n, 0, None).1
  }

  /** The error of the last attempt, if any attempt was made. */
  function LastError<T>(op: nat -> Result<T>, n: int): Option<Error> {
    if n >= 1 && op(n - 1).Failure? then Some(op(n - 1).error) else None
  }

  lemma {:induction false} RetriedFrom<T>(op: nat -> Result<T>, n: int, k: nat, last: Option<Error>)
    requires k == 0 ==> last == None
    requires k > 0 ==> k <= n && op(k - 1).Failure? && last == Some(op(k - 1).error)
    ensures var (r, calls) := Retried(op, n, k, last);
      && k <= calls && (calls <= n || calls == k)
      && (r.Success? <==> exists j :: k <= j < n && op(j).Success?)
      && (r.Success? ==> calls >= 1 && op(calls - 1) == r
                         && forall j :: k <= j < calls - 1 ==> op(j).Failure?)
      && (r.Failure? ==> calls == (if n > k then n else k)
                         && r.error == Exhausted(n, if n > k then LastError(op, n) else last))
    decreases n - k
  {
    if k < n {
      match op(k)
      case Success(v) =>
      case Failure(e) => RetriedFrom(op, n, k + 1, Some(e));
    }
  }

  /** The loop calls the operation at most `n` times and stops at the first
      success, which it returns unchanged; it fails only when every one of
      the `n` attempts failed, and then wraps the last attempt's error. */
  lemma RetrySpec<T>(op: nat -> Result<T>, n: int)
    ensures Calls(op, n) <= (if n > 0 then n else 0)
    ensures Outcome(op, n).Success? <==> exists j :: 0 <= j < n && op(j).Success?
    ensures Outcome(op, n).Success? ==>
      && Calls(op, n) >= 1
      && op(Calls(op, n) - 1) == Outcome(op, n)
      && forall j :: 0 <= j < Calls(op, n) - 1 ==> op(j).Failure?
    ensures Outcome(op, n).Failure? ==>
      && Calls(op, n) == (if n > 0 then n else 0)
      && Outcome(op, n).error == Exhausted(n, LastError(op, n))
  {
    RetriedFrom(op, n, 0, None);
  }

  /** The Go attempt loop `for attempt := 1; attempt <= maxAttempts; attempt++`
      with `lastErr` and a sleep of `delay` only when `attempt < maxAttempts`. */
  method Run<T>(op: nat -> Result<T>, maxAttempts: int, delay: int)
    returns (r: Result<T>, ghost calls: nat, ghost sleeps: seq<int>)
    ensures r == Outcome(op, maxAttempts) && calls == Calls(op, maxAttempts)
    ensures r.Success? <==> exists j :: 0 <= j < maxAttempts && op(j).Success?
    ensures r.Success? ==> calls >= 1 && op(calls - 1) == r
    ensures r.Success? ==> forall j :: 0 <= j < calls - 1 ==> op(j).Failure?
    ensures r.Failure? ==> r.error == Exhausted(maxAttempts, LastError(op, maxAttempts))
    ensures r.Failure? ==> calls == (if maxAttempts > 0 then maxAttempts else 0)
    ensures calls <= (if maxAttempts > 0 then maxAttempts else 0)
    ensures |sleeps| == (if calls == 0 then 0 else calls - 1)
    ensures forall d :: d in sleeps ==> d == delay
  {
    RetrySpec(op, maxAttempts);
    var lastErr: Option<Error> := None;
    var attempt := 1;
    calls, sleeps := 0, [];
    while attempt <= maxAttempts
      invariant 1 <= attempt && calls == attempt - 1
      invariant attempt > 1 ==> attempt - 1 <= maxAttempts
      invariant attempt > 1 ==> op(attempt - 2).Failure? && lastErr == Some(op(attempt - 2).error)
      invariant attempt == 1 ==> lastErr == None
      invariant Retried(op, maxAttempts, 0, None) == Retried(op, maxAttempts, calls, lastErr)
      invariant |sleeps| == (if attempt <= maxAttempts || calls == 0 then calls else calls - 1)
      invariant forall d :: d in sleeps ==> d == delay
    {
      var result := op(attempt - 1);
      calls := calls + 1;
      if result.Success? {
        return result, calls, sleeps;
      }
      lastErr := Some(result.error);
      if attempt < maxAttempts {
        sleeps := sleeps + [delay];
      }
      attempt := attempt + 1;
    }
    r := Failure(Exhausted(maxAttempts, lastErr));
  }

  /** An operation that fails twice and then succeeds: with three attempts it
      is called exactly three times and its third answer is returned; with
      two attempts the loop gives up and wraps the second failure. */
  lemma FailTwiceThenSucceed(v: int)
    ensures var op := (k: nat) => if k < 2 then Failure(Remote("unavailable")) else Success(v);
      && Outcome(op, 3) == Success(v) && Calls(op, 3) == 3
      && Outcome(op, 2) == Failure(Exhausted(2, Some(Remote("unavailable"))))
  {
  }
}
