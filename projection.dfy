/** The savings projection of the diagnostic script: a zero balance fed by a
    monthly contribution (`aporte`, starting at `ahorro`) for
    `(retiro - edad) * 12` months. Every month the contribution is deposited
    and the whole balance then earns one month of interest at `tasa / 12`;
    after every twelfth month the contribution is raised by 4% for inflation.

    Money is modelled as exact `real`s, so the recurrence, its closed form and
    its bounds can be stated without floating-point rounding. */
module Projection {

  /** The fixed annual interest rate of the script (`tasa = 0.10`). */
  const AnnualRate: real := 0.10

  /** The factor applied to the balance every month: `1 + tasa / 12`. */
  const MonthlyFactor: real := 1.0 + AnnualRate / 12.0

  /** The yearly inflation raise of the contribution (`aporte *= 1.04`). */
  const InflationFactor: real := 1.04

  /** `x` raised to the natural power `k`. */
  function Pow(x: real, k: nat): real
  {
    if k == 0 then 1.0 else x * Pow(x, k - 1)
  }

  /** The number of months the loop runs: `range(1, plazo * 12 + 1)` with
      `plazo = retiro - edad` is empty unless `plazo` is positive. */
  function Months(edad: int, retiro: int): (n: nat)
    ensures n == 0 <==> retiro <= edad
    ensures retiro > edad ==> n == (retiro - edad) * 12
  {
    if retiro > edad then (retiro - edad) * 12 else 0
  }

  /** The value `aporte` holds after `k` months: the starting contribution,
      multiplied by the inflation factor after every month whose index is a
      multiple of 12. */
  function ContributionAfter(ahorro: real, k: nat): real
  {
    if k == 0 then ahorro
    else if k % 12 == 0 then ContributionAfter(ahorro, k - 1) * InflationFactor
    else ContributionAfter(ahorro, k - 1)
  }

  /** The amount deposited in month `i` (months are numbered from 1, as the
      loop's `i`): the contribution in force after the first `i - 1` months. */
  function Deposit(ahorro: real, i: nat): real
    requires i >= 1
  {
    ContributionAfter(ahorro, i - 1)
  }

  /** The value `saldo` holds after `n` months. */
  function Balance(ahorro: real, n: nat): real
  {
    if n == 0 then 0.0
    else (Balance(ahorro, n - 1) + Deposit(ahorro, n)) * MonthlyFactor
  }

  /** The sum of the first `k` deposits of an `n`-month projection, each
      compounded from its own month to the end: deposit `i` earns
      `n - i + 1` months of interest, its own month included. */
  function CompoundedDeposits(ahorro: real, n: nat, k: nat): real
    requires k <= n
  {
    if k == 0 then 0.0
    else CompoundedDeposits(ahorro, n, k - 1) + Deposit(ahorro, k) * Pow(MonthlyFactor, n - k + 1)
  }

  /** The nominal total deposited during the first `n` months. */
  function Deposited(ahorro: real, n: nat): real
  {
    if n == 0 then 0.0 else Deposited(ahorro, n - 1) + Deposit(ahorro, n)
  }

  // ---------------------------------------------------------------------------
  // The contribution schedule
  // ---------------------------------------------------------------------------

  /** After `k` months the contribution has been raised once per completed
      year: `aporte == ahorro * 1.04^(k div 12)`. */
  lemma {:induction false} ContributionClosedForm(ahorro: real, k: nat)
    ensures ContributionAfter(ahorro, k) == ahorro * Pow(InflationFactor, k / 12)
  {
    if k > 0 {
      ContributionClosedForm(ahorro, k - 1);
      if k % 12 == 0 {
        assert k / 12 == (k - 1) / 12 + 1;
        assert Pow(InflationFactor, k / 12) == InflationFactor * Pow(InflationFactor, (k - 1) / 12);
      } else {
        assert k / 12 == (k - 1) / 12;
      }
    }
  }

  /** The deposit of month `i` is `ahorro * 1.04^((i - 1) div 12)`, so two
      months of the same contribution year deposit the same amount. */
  lemma {:induction false} SameYearSameDeposit(ahorro: real, i: nat, j: nat)
    requires i >= 1 && j >= 1
    requires (i - 1) / 12 == (j - 1) / 12
    ensures Deposit(ahorro, i) == Deposit(ahorro, j)
  {
    ContributionClosedForm(ahorro, i - 1);
    ContributionClosedForm(ahorro, j - 1);
  }

  /** The first raise takes effect after month 12: months 1 to 12 deposit
      `ahorro`, and month 13 deposits `ahorro * 1.04`. */
  lemma FirstRaiseAfterTwelfthMonth(ahorro: real, i: nat)
    requires 1 <= i <= 12
    ensures Deposit(ahorro, i) == ahorro
    ensures Deposit(ahorro, 13) == ahorro * InflationFactor
  {
    ContributionClosedForm(ahorro, i - 1);
    ContributionClosedForm(ahorro, 12);
  }

  /** With a non-negative saving the contribution never falls below it. */
  lemma {:induction false} ContributionAtLeastSaving(ahorro: real, k: nat)
    requires ahorro >= 0.0
    ensures ContributionAfter(ahorro, k) >= ahorro
  {
    if k > 0 {
      ContributionAtLeastSaving(ahorro, k - 1);
    }
  }

  /** After a month whose index is a multiple of 12 the contribution grows
      by 4%, and after any other month it stays the same. With a non-negative
      saving it therefore never decreases; with a positive one it changes
      exactly after the months whose index is a multiple of 12. */
  lemma ContributionStep(ahorro: real, k: nat)
    ensures (k + 1) % 12 == 0 ==> ContributionAfter(ahorro, k + 1) == ContributionAfter(ahorro, k) * InflationFactor
    ensures (k + 1) % 12 != 0 ==> ContributionAfter(ahorro, k + 1) == ContributionAfter(ahorro, k)
    ensures ahorro >= 0.0 ==> ContributionAfter(ahorro, k) <= ContributionAfter(ahorro, k + 1)
    ensures ahorro > 0.0 ==> (ContributionAfter(ahorro, k) < ContributionAfter(ahorro, k + 1) <==> (k + 1) % 12 == 0)
  {
    if ahorro >= 0.0 {
      ContributionAtLeastSaving(ahorro, k);
    }
  }

  // ---------------------------------------------------------------------------
  // The balance
  // ---------------------------------------------------------------------------

  /** Each month deposits before interest is applied, so the deposit earns
      the interest of its own month: for every saving the new balance is the
      old balance and the deposit, both with one month of interest, and with a
      positive saving this is more than crediting the deposit after interest. */
  lemma DepositEarnsItsMonth(ahorro: real, n: nat)
    ensures Balance(ahorro, n + 1) == Balance(ahorro, n) * MonthlyFactor + Deposit(ahorro, n + 1) * MonthlyFactor
    ensures ahorro > 0.0 ==> Balance(ahorro, n + 1) > Balance(ahorro, n) * MonthlyFactor + Deposit(ahorro, n + 1)
  {
    if ahorro > 0.0 {
      ContributionAtLeastSaving(ahorro, n);
    }
  }

  /** With a non-negative saving the balance is never negative. */
  lemma {:induction false} BalanceNonNegative(ahorro: real, n: nat)
    requires ahorro >= 0.0
    ensures Balance(ahorro, n) >= 0.0
  {
    if n > 0 {
      BalanceNonNegative(ahorro, n - 1);
      ContributionAtLeastSaving(ahorro, n - 1);
    }
  }

  /** With a non-negative saving the balance never decreases from one month to
      the next, and with a positive saving it strictly increases. */
  lemma BalanceStepMonotone(ahorro: real, n: nat)
    requires ahorro >= 0.0
    ensures Balance(ahorro, n) <= Balance(ahorro, n + 1)
    ensures ahorro > 0.0 ==> Balance(ahorro, n) < Balance(ahorro, n + 1)
  {
    BalanceNonNegative(ahorro, n);
    ContributionAtLeastSaving(ahorro, n);
  }

  /** With a non-negative saving a longer projection never ends lower, and
      with a positive saving it ends strictly higher. */
  lemma {:induction false} BalanceMonotone(ahorro: real, m: nat, n: nat)
    requires ahorro >= 0.0 && m <= n
    ensures Balance(ahorro, m) <= Balance(ahorro, n)
    ensures ahorro > 0.0 && m < n ==> Balance(ahorro, m) < Balance(ahorro, n)
    decreases n - m
  {
    if m < n {
      BalanceStepMonotone(ahorro, m);
      BalanceMonotone(ahorro, m + 1, n);
    }
  }

  /** Extending the projection by one month compounds every earlier deposit
      by one more month of interest. */
  lemma {:induction false} CompoundedDepositsShift(ahorro: real, n: nat, k: nat)
    requires k <= n
    ensures CompoundedDeposits(ahorro, n + 1, k) == CompoundedDeposits(ahorro, n, k) * MonthlyFactor
  {
    if k > 0 {
      CompoundedDepositsShift(ahorro, n, k - 1);
      var d := Deposit(ahorro, k);
      var p := Pow(MonthlyFactor, n - k + 1);
      assert Pow(MonthlyFactor, n + 1 - k + 1) == MonthlyFactor * p;
      calc {
        CompoundedDeposits(ahorro, n + 1, k);
        CompoundedDeposits(ahorro, n + 1, k - 1) + d * (MonthlyFactor * p);
        CompoundedDeposits(ahorro, n, k - 1) * MonthlyFactor + (d * p) * MonthlyFactor;
        (CompoundedDeposits(ahorro, n, k - 1) + d * p) * MonthlyFactor;
      }
    }
  }

  /** The closed form of the recurrence: the balance after `n` months is the
      sum over the months `i` in `1..n` of the deposit of month `i`
      compounded for `n - i + 1` months. */
  lemma {:induction false} BalanceClosedForm(ahorro: real, n: nat)
    ensures Balance(ahorro, n) == CompoundedDeposits(ahorro, n, n)
  {
    if n > 0 {
      BalanceClosedForm(ahorro, n - 1);
      CompoundedDepositsShift(ahorro, n - 1, n - 1);
      assert Pow(MonthlyFactor, 1) == MonthlyFactor;
    }
  }

  /** With a non-negative saving at least `n * ahorro` is deposited during
      the first `n` months. */
  lemma {:induction false} DepositedAtLeast(ahorro: real, n: nat)
    requires ahorro >= 0.0
    ensures Deposited(ahorro, n) >= ahorro * (n as real)
  {
    if n > 0 {
      DepositedAtLeast(ahorro, n - 1);
      ContributionAtLeastSaving(ahorro, n - 1);
      assert ahorro * (n as real) == ahorro * ((n - 1) as real) + ahorro;
    }
  }

  /** With a non-negative saving every deposit stays in the account and earns
      at least the interest of its own month: the balance is at least the
      total deposited times the monthly factor. */
  lemma {:induction false} BalanceCoversDeposits(ahorro: real, n: nat)
    requires ahorro >= 0.0
    ensures Balance(ahorro, n) >= Deposited(ahorro, n) * MonthlyFactor
  {
    if n > 0 {
      BalanceCoversDeposits(ahorro, n - 1);
      DepositedAtLeast(ahorro, n - 1);
      var b, t, d := Balance(ahorro, n - 1), Deposited(ahorro, n - 1), Deposit(ahorro, n);
      assert ahorro * ((n - 1) as real) >= 0.0;
      assert b >= t * MonthlyFactor >= t;
      assert Balance(ahorro, n) == (b + d) * MonthlyFactor;
      assert Deposited(ahorro, n) == t + d;
    }
  }

  // ---------------------------------------------------------------------------
  // The loop of the script
  // ---------------------------------------------------------------------------

  /** The projection loop: `saldo` and `aporte` as the script leaves them.
      The final balance is that of `Months(edad, retiro)` months, which is 0
      when `retiro <= edad`, and `aporte` has received every raise, including
      the one after the final month, which the balance never sees. */
  method Project(ahorro: real, edad: int, retiro: int) returns (saldo: real, aporte: real)
    ensures saldo == Balance(ahorro, Months(edad, retiro))
    ensures aporte == ahorro * Pow(InflationFactor, Months(edad, retiro) / 12)
    ensures retiro <= edad ==> saldo == 0.0 && aporte == ahorro
  {
    var plazo := retiro - edad;
    saldo := 0.0;
    aporte := ahorro;
    var i := 1;
    while i < plazo * 12 + 1
      invariant 1 <= i <= Months(edad, retiro) + 1
      invariant saldo == Balance(ahorro, i - 1)
      invariant aporte == ContributionAfter(ahorro, i - 1)
    {
      saldo := (saldo + aporte) * MonthlyFactor;
      if i % 12 == 0 {
        aporte := aporte * InflationFactor;
      }
      i := i + 1;
    }
    ContributionClosedForm(ahorro, Months(edad, retiro));
  }
}
