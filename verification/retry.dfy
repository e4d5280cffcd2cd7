/** `connect_with_retry`: opening and connecting with a bounded exponential backoff. */
module Retry {
  import opened Bytes
  import opened Results

  /** What the environment makes of one attempt; `transport` is what `open` returned. */
  datatype Attempt<T> =
    | OpenFails(error: Error)
    | ConnectFails(transport: T, error: Error)
    | Connects(transport: T)

  const NOT_OPENED := Error(ErrorCode.Transport, "the transport was not opened")

  function Shift(attempt: nat): nat
    requires attempt > 0
  {
    if attempt - 1 < CAP then attempt - 1 else CAP
  }

  /** The waits before attempts 1 to n - 1, in units of the backoff. */
  function Waits(n: nat): nat { if n <= 1 then 0 else Waits(n - 1) + Pow2(Shift(n - 1)) }

  /** The wait is capped at this power of two. */
  const CAP: nat := 20

  lemma {:induction false} EarlyWaits(n: nat)
    requires 1 <= n <= CAP + 2
    ensures Waits(n) == Pow2(n - 1) - 1
  {
    if n > 1 {
      EarlyWaits(n - 1);
      assert Shift(n - 1) == n - 2 && Pow2(n - 1) == 2 * Pow2(n - 2);
    }
  }

  function Times(k: nat, step: nat): nat { if k == 0 then 0 else Times(k - 1, step) + step }

  lemma {:induction false} TimesIsProduct(k: nat, step: nat)
    ensures Times(k, step) == step * k
  {
    if k > 0 {
      TimesIsProduct(k - 1, step);
      Distribute(step, k - 1, 1);
    }
  }

  lemma {:induction false} LateWaits(from: nat, n: nat, step: nat)
    requires CAP + 2 <= from <= n && step == Pow2(CAP)
    ensures Waits(n) == Waits(from) + Times(n - from, step)
  {
    if n > from {
      LateWaits(from, n - 1, step);
      assert Shift(n - 1) == CAP;
    }
  }

  /** The waits in closed form: doubling at first, then growing by the same step. */
  lemma WaitsTotal(n: nat)
    requires n >= 1
    ensures n <= CAP + 2 ==> Waits(n) == Pow2(n - 1) - 1
    ensures n >= CAP + 2 ==> Waits(n) == Pow2(CAP + 1) - 1 + Pow2(CAP) * (n - (CAP + 2))
  {
    if n <= CAP + 2 {
      EarlyWaits(n);
    }
    if n >= CAP + 2 {
      LateWaits(CAP + 2, n, Pow2(CAP));
      EarlyWaits(CAP + 2);
      TimesIsProduct(n - (CAP + 2), Pow2(CAP));
    }
  }

  /** The first attempt that connects, among the first `n`; `n` when there is none. */
  function FirstSuccess<T>(plan: nat -> Attempt<T>, n: nat): (k: nat)
    ensures k <= n && (k < n ==> plan(k).Connects?)
    ensures forall i: nat :: i < k ==> !plan(i).Connects?
  {
    if n == 0 then 0
    else
      var k := FirstSuccess(plan, n - 1);
      if k < n - 1 || plan(n - 1).Connects? then k else n
  }

  /** Whether any of the first `n` attempts got as far as putting a transport in the slot. */
  predicate Emplaced<T>(plan: nat -> Attempt<T>, n: nat)
  {
    n > 0 && (!plan(n - 1).OpenFails? || Emplaced(plan, n - 1))
  }

  /** They did if and only if one of them was opened. */
  lemma {:induction false} EmplacedIff<T>(plan: nat -> Attempt<T>, n: nat)
    ensures Emplaced(plan, n) <==> exists i: nat :: i < n && !plan(i).OpenFails?
  {
    if n > 0 {
      EmplacedIff(plan, n - 1);
      assert !plan(n - 1).OpenFails? ==> exists i: nat :: i < n && !plan(i).OpenFails?;
    }
  }

  function ErrorOf<T>(a: Attempt<T>): Error
    requires !a.Connects?
  {
    a.error
  }

  /** The total delay before attempt `n`, wait by wait. */
  function Delay(backoff: nat, n: nat): nat
  {
    if n <= 1 then 0 else Delay(backoff, n - 1) + Wait(backoff, n - 1)
  }

  /** The wait before an attempt: a bounded doubling. */
  function Wait(backoff: nat, attempt: nat): nat
    requires attempt > 0
  {
    backoff * Pow2(Shift(attempt))
  }

  /** The delay is the backoff times the sum of the waits. */
  lemma {:induction false} DelayIsWaits(backoff: nat, n: nat)
    ensures Delay(backoff, n) == backoff * Waits(n)
  {
    if n > 1 {
      DelayIsWaits(backoff, n - 1);
      var sum, last := Waits(n - 1), Pow2(Shift(n - 1));
      assert Waits(n) == sum + last;
      Distribute(backoff, sum, last);
    }
  }

  lemma Distribute(a: nat, b: nat, c: nat)
    ensures a * (b + c) == a * b + a * c
  {
  }

  /**
   Over every behaviour of the environment: success comes at the first attempt that connects and leaves its
   transport in the slot; failure reports the last attempt's error and leaves the slot empty, or as it was if no
   transport was ever opened; there are no more opens than attempts, and the total delay is the sum of the waits.
   */
  method ConnectWithRetry<T>(plan: nat -> Attempt<T>, before: Option<T>, attempts: int, backoff: nat)
    returns (r: Result<T>, slot: Option<T>, opens: nat, delay: nat)
    ensures var n := if attempts < 0 then 0 else attempts;
            var k := FirstSuccess(plan, n);
            if k < n then
              && r == Ok(plan(k).transport) && slot == Some(plan(k).transport)
              && opens == k + 1
            else
              && r == Err(if n == 0 then NOT_OPENED else plan(n - 1).error)
              && slot == (if Emplaced(plan, n) then None else before)
              && opens == n
    ensures delay == Delay(backoff, opens)
  {
    r, slot, opens, delay := Err(NOT_OPENED), before, 0, 0;
    var attempt := 0;
    while attempt < attempts
      invariant 0 <= attempt && (attempts >= 0 ==> attempt <= attempts) && (attempts < 0 ==> attempt == 0)
      invariant opens == attempt && delay == Delay(backoff, attempt)
      invariant forall i: nat :: i < attempt ==> !plan(i).Connects?
      invariant r == Err(if attempt == 0 then NOT_OPENED else ErrorOf(plan(attempt - 1)))
      invariant slot == if Emplaced(plan, attempt) then None else before
    {
      if attempt > 0 {
        delay := delay + Wait(backoff, attempt);
      }
      opens := opens + 1;
      match plan(attempt) {
        case OpenFails(e) =>
          r := Err(e);
        case ConnectFails(t, e) =>
          slot := Some(t);
          r := Err(e);
          slot := None;
        case Connects(t) =>
          slot := Some(t);
          return Ok(t), slot, opens, delay;
      }
      attempt := attempt + 1;
    }
  }
}
