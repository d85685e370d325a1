/** The doubling delay of both polling loops and its closed form. */
module Backoff {
  import opened Prelude

  function Pow2(k: nat): nat { if k == 0 then 1 else 2 * Pow2(k - 1) }

  /** `backoffMs = Math.min(backoffMs * 2, idleMaxMs)`. */
  function Doubled(delay: nat, idleMax: nat): nat { Min(delay * 2, idleMax) }

  /** The delay after `k` waits, starting from the poll interval. */
  function DelayAfter(poll: nat, idleMax: nat, k: nat): nat {
    if k == 0 then poll else Doubled(DelayAfter(poll, idleMax, k - 1), idleMax)
  }

  /** Doubling with a cap at every step is capping once at the end. */
  lemma {:induction false} DelayClosedForm(poll: nat, idleMax: nat, k: nat)
    requires poll <= idleMax
    ensures DelayAfter(poll, idleMax, k) == Min(poll * Pow2(k), idleMax)
  {
    if k > 0 {
      DelayClosedForm(poll, idleMax, k - 1);
      TimesTwo(poll, Pow2(k - 1));
      CapOnce(poll * Pow2(k - 1), idleMax);
    }
  }

  lemma TimesTwo(a: nat, b: nat)
    ensures a * (2 * b) == 2 * (a * b)
  {}

  lemma CapOnce(a: nat, idleMax: nat)
    ensures Doubled(Min(a, idleMax), idleMax) == Min(2 * a, idleMax)
  {}

  /** The closed form fails exactly when the first delay already exceeds the cap. */
  lemma ClosedFormNeedsOrder(poll: nat, idleMax: nat)
    ensures (forall k: nat :: DelayAfter(poll, idleMax, k) == Min(poll * Pow2(k), idleMax)) <==> poll <= idleMax
  {
    if poll <= idleMax {
      forall k: nat ensures DelayAfter(poll, idleMax, k) == Min(poll * Pow2(k), idleMax) { DelayClosedForm(poll, idleMax, k); }
    } else {
      assert DelayAfter(poll, idleMax, 0) == poll && Pow2(0) == 1;
    }
  }

  /** The sum of the first `k` delays. */
  function TotalDelay(poll: nat, idleMax: nat, k: nat): nat {
    if k == 0 then 0 else TotalDelay(poll, idleMax, k - 1) + DelayAfter(poll, idleMax, k - 1)
  }

  lemma Distribute(a: int, b: int, c: int)
    ensures (a + b) * c == a * c + b * c && c * (a + b) == c * a + c * b
  {}

  /** The total never exceeds `k` caps. */
  lemma {:induction false} TotalIsCapped(poll: nat, idleMax: nat, k: nat)
    requires poll <= idleMax
    ensures TotalDelay(poll, idleMax, k) <= k * idleMax
  {
    if k > 0 {
      TotalIsCapped(poll, idleMax, k - 1);
      DelayClosedForm(poll, idleMax, k - 1);
      Distribute(k - 1, 1, idleMax);
    }
  }

  /** While the cap is not reached the total is a geometric sum. */
  lemma {:induction false} TotalIsGeometric(poll: nat, idleMax: nat, k: nat)
    requires poll <= idleMax && poll * Pow2(k) <= 2 * idleMax
    ensures TotalDelay(poll, idleMax, k) == poll * Pow2(k) - poll
  {
    if k > 0 {
      var half := Pow2(k - 1);
      Distribute(half, half, poll);
      assert poll * Pow2(k) == poll * half + poll * half;
      TotalIsGeometric(poll, idleMax, k - 1);
      DelayClosedForm(poll, idleMax, k - 1);
    }
  }
}
