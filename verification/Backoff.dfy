/** The exponential backoff schedule, over natural numbers. */
module Backoff {
  datatype BackoffOptions = BackoffOptions(
    exponentialBackoffBase: nat,
    constantBackoffMs: nat,
    maxBackoffMs: int,
    maxRetries: int)

  function Pow(base: nat, exponent: nat): nat {
    if exponent == 0 then 1 else base * Pow(base, exponent - 1)
  }

  function Uncapped(o: BackoffOptions, retries: nat): nat {
    Pow(o.exponentialBackoffBase, retries) * o.constantBackoffMs
  }

  function GetBackoffMs(o: BackoffOptions, retries: nat): (ms: nat)
    ensures ms <= Uncapped(o, retries)
    ensures o.maxBackoffMs > 0 ==> ms <= o.maxBackoffMs
    ensures ms == Uncapped(o, retries) || (ms == o.maxBackoffMs > 0)
  {
    var backoffMs := Uncapped(o, retries);
    if o.maxBackoffMs > 0 && backoffMs > o.maxBackoffMs then o.maxBackoffMs else backoffMs
  }

  /**
   * The schedule, by its laws: without a cap, it starts at the constant and is multiplied by the
   * base each time; a positive cap cuts it off.
   */
  lemma Schedule(o: BackoffOptions, n: nat)
    ensures o.maxBackoffMs <= 0 ==>
              && GetBackoffMs(o, 0) == o.constantBackoffMs
              && GetBackoffMs(o, n + 1) == o.exponentialBackoffBase * GetBackoffMs(o, n)
    ensures o.maxBackoffMs > 0 ==>
              var ms := GetBackoffMs(o.(maxBackoffMs := 0), n);
              GetBackoffMs(o, n) == if ms > o.maxBackoffMs then o.maxBackoffMs else ms
  {
    UncappedStep(o, n);
    NoWait(o);
    SameUncapped(o, n);
  }

  lemma {:induction false} SameUncapped(o: BackoffOptions, n: nat)
    ensures Uncapped(o.(maxBackoffMs := 0), n) == Uncapped(o, n)
  {
  }

  const DEFAULT_BACKOFF_OPTIONS := BackoffOptions(2, 500, 3000, -1)

  lemma DefaultSchedule(n: nat)
    requires n >= 3
    ensures var o := DEFAULT_BACKOFF_OPTIONS;
            && GetBackoffMs(o, 0) == 500 && GetBackoffMs(o, 1) == 1000 && GetBackoffMs(o, 2) == 2000
            && GetBackoffMs(o, n) == 3000
  {
    var o := DEFAULT_BACKOFF_OPTIONS;
    NoWait(o);
    UncappedStep(o, 0);
    UncappedStep(o, 1);
    UncappedStep(o, 2);
    Nondecreasing(o, 3, n);
  }

  lemma ScaleMonotone(a: nat, b: nat, c: nat)
    requires a <= b
    ensures a * c <= b * c
  {
  }

  lemma UncappedStep(o: BackoffOptions, retries: nat)
    ensures Uncapped(o, retries + 1) == o.exponentialBackoffBase * Uncapped(o, retries)
  {
    var b, p, c := o.exponentialBackoffBase, Pow(o.exponentialBackoffBase, retries), o.constantBackoffMs;
    assert (b * p) * c == b * (p * c);
  }

  /** Waits never get shorter; once at the cap, they stay there. */
  lemma {:induction false} Nondecreasing(o: BackoffOptions, i: nat, j: nat)
    requires o.exponentialBackoffBase >= 1 && i <= j
    ensures Uncapped(o, i) <= Uncapped(o, j)
    ensures GetBackoffMs(o, i) <= GetBackoffMs(o, j)
    ensures o.maxBackoffMs > 0 && Uncapped(o, i) >= o.maxBackoffMs ==> GetBackoffMs(o, j) == o.maxBackoffMs
    decreases j - i
  {
    if i < j {
      UncappedStep(o, i);
      ScaleMonotone(1, o.exponentialBackoffBase, Uncapped(o, i));
      Nondecreasing(o, i + 1, j);
    }
  }

  /** The total wait over the first `n` retries. */
  function TotalWait(o: BackoffOptions, n: nat): nat {
    if n == 0 then 0 else TotalWait(o, n - 1) + GetBackoffMs(o, n - 1)
  }

  lemma {:induction false} TotalWaitCapped(o: BackoffOptions, n: nat)
    requires o.maxBackoffMs > 0
    ensures TotalWait(o, n) <= n * o.maxBackoffMs
  {
    if n > 0 {
      TotalWaitCapped(o, n - 1);
      assert (n - 1) * o.maxBackoffMs + o.maxBackoffMs == n * o.maxBackoffMs;
    }
  }

  /** The geometric bound: at most constant * (base^n - 1) / (base - 1), written without division. */
  lemma {:induction false} TotalWaitGeometric(o: BackoffOptions, n: nat)
    requires o.exponentialBackoffBase >= 1
    ensures (o.exponentialBackoffBase - 1) * TotalWait(o, n) <= Uncapped(o, n) - o.constantBackoffMs
  {
    hide GetBackoffMs, Pow;
    if n == 0 {
      NoWait(o);
    } else {
      TotalWaitGeometric(o, n - 1);
      UncappedStep(o, n - 1);
      GeometricStep(o.exponentialBackoffBase, TotalWait(o, n - 1), GetBackoffMs(o, n - 1), Uncapped(o, n - 1),
                    o.constantBackoffMs);
    }
  }

  lemma NoWait(o: BackoffOptions)
    ensures Uncapped(o, 0) == o.constantBackoffMs
  {
  }

  lemma GeometricStep(base: nat, total: nat, ms: nat, last: nat, constant: nat)
    requires base >= 1 && ms <= last && (base - 1) * total <= last - constant
    ensures (base - 1) * (total + ms) <= base * last - constant
  {
    ScaleMonotone(ms, last, base - 1);
    assert (base - 1) * (total + ms) == (base - 1) * total + (base - 1) * ms;
    assert base * last == (base - 1) * last + last;
  }
}
