/** The alert of the diagnostic script: which message it shows for the
    selected tax regime and the projected final balance. The message text
    (with its currency formatting) is not modelled; the alert records which
    of the three messages is chosen and, for the warning, the two amounts it
    quotes. */
module Alerts {

  /** The label of the deductible retirement-plan regime in the regime selector. */
  const PprRegime: string := "Art 151 (PPR)"

  /** The label of the other regime in the regime selector. */
  const Art93Regime: string := "Art 93"

  /** The fixed cap the script compares the final balance with (`tope_ppr`). */
  const PprCap: real := 3714612.0

  /** Why the alert is a success. */
  datatype Reason =
    | WithinPprCap   // the PPR regime, balance not above the cap
    | NoAmountCap    // any other regime: no amount cap applies

  /** `alerta_tipo` with what `alerta_texto` says: a warning quoting the
      balance and the cap, or a success and its reason. */
  datatype Alert = Warning(balance: real, cap: real) | Success(reason: Reason)
  {
    predicate IsWarning() { Warning? }
  }

  /** The alert decision: the PPR regime warns exactly when the balance is
      strictly above the cap; every other regime, "Art 93" included, always
      succeeds. */
  function Classify(regimen: string, saldo: real): (a: Alert)
    ensures a.IsWarning() <==> regimen == PprRegime && saldo > PprCap
    ensures a.IsWarning() ==> a.balance == saldo && a.cap == PprCap
    ensures !a.IsWarning() ==> a.reason == (if regimen == PprRegime then WithinPprCap else NoAmountCap)
  {
    if regimen == PprRegime then
      if saldo > PprCap then Warning(saldo, PprCap) else Success(WithinPprCap)
    else
      Success(NoAmountCap)
  }

  /** The threshold is strict: a balance exactly at the cap succeeds, and
      any balance above it, however little, warns. */
  lemma CapBoundary(excess: real)
    requires excess > 0.0
    ensures Classify(PprRegime, PprCap) == Success(WithinPprCap)
    ensures Classify(PprRegime, PprCap + excess) == Warning(PprCap + excess, PprCap)
  {
  }

  /** "Art 93" never warns, whatever the balance. */
  lemma Art93NeverWarns(saldo: real)
    ensures Classify(Art93Regime, saldo) == Success(NoAmountCap)
  {
  }

  /** Under a fixed regime a warning persists when the balance grows. */
  lemma WarningUpwardClosed(regimen: string, saldo: real, larger: real)
    requires saldo <= larger
    requires Classify(regimen, saldo).IsWarning()
    ensures Classify(regimen, larger).IsWarning()
  {
  }
}
