/** The computation of the diagnostic script from its inputs to the alert it
    shows: the projection loop followed by the alert decision. Inputs arrive as
    parameters (the script reads them from input widgets). */
module Diagnostic {
  import opened Projection
  import opened Alerts

  /** The balance at retirement for the given inputs. */
  function FinalBalance(ahorro: real, edad: int, retiro: int): real
  {
    Balance(ahorro, Months(edad, retiro))
  }

  /** Runs the projection and classifies its final balance. The integer
      saving of the input widget is taken as an exact amount. */
  method Diagnose(regimen: string, ahorro: int, edad: int, retiro: int) returns (saldo: real, alerta: Alert)
    ensures saldo == FinalBalance(ahorro as real, edad, retiro)
    ensures alerta.IsWarning() <==> regimen == PprRegime && saldo > PprCap
    ensures alerta.IsWarning() ==> alerta == Warning(saldo, PprCap)
    ensures regimen == PprRegime && saldo <= PprCap ==> alerta == Success(WithinPprCap)
    ensures regimen != PprRegime ==> alerta == Success(NoAmountCap)
    ensures alerta == Classify(regimen, saldo)
  {
    var aporte;
    saldo, aporte := Project(ahorro as real, edad, retiro);
    alerta := Classify(regimen, saldo);
  }

  /** With no positive horizon nothing is saved, so no regime warns. */
  lemma {:induction false} EmptyHorizonNeverWarns(regimen: string, ahorro: real, edad: int, retiro: int)
    requires retiro <= edad
    ensures FinalBalance(ahorro, edad, retiro) == 0.0
    ensures !Classify(regimen, FinalBalance(ahorro, edad, retiro)).IsWarning()
  {
  }

  /** With a non-negative saving a later retirement age never lowers the
      final balance. */
  lemma LaterRetirementNeverLowers(ahorro: real, edad: int, retiro: int, later: int)
    requires ahorro >= 0.0 && retiro <= later
    ensures FinalBalance(ahorro, edad, retiro) <= FinalBalance(ahorro, edad, later)
  {
    BalanceMonotone(ahorro, Months(edad, retiro), Months(edad, later));
  }

  /** Hence, with a non-negative saving, a warning is kept by retiring later. */
  lemma LaterRetirementKeepsWarning(regimen: string, ahorro: real, edad: int, retiro: int, later: int)
    requires ahorro >= 0.0 && retiro <= later
    requires Classify(regimen, FinalBalance(ahorro, edad, retiro)).IsWarning()
    ensures Classify(regimen, FinalBalance(ahorro, edad, later)).IsWarning()
  {
    LaterRetirementNeverLowers(ahorro, edad, retiro, later);
  }

  /** With a positive saving the balance is strictly positive after any
      positive horizon. */
  lemma PositiveHorizonPositiveBalance(ahorro: real, edad: int, retiro: int)
    requires ahorro > 0.0 && edad < retiro
    ensures FinalBalance(ahorro, edad, retiro) > 0.0
  {
    BalanceMonotone(ahorro, 0, Months(edad, retiro));
  }
}
