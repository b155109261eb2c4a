# Krece360 diagnostic projection, modelled in Dafny

The Krece360 diagnostic script (`app.py`) projects a retirement savings account and shows an alert. Its numeric core is what this project models:

- **The projection loop** (module `Projection`, `projection.dfy`). It starts from a zero balance (`saldo`) and a monthly contribution (`aporte`) equal to the saving (`ahorro`). It runs for `(retiro - edad) * 12` months. Each month it deposits the contribution and then applies one month of interest, `tasa / 12` with `tasa = 0.10`. After every twelfth month it raises the contribution by 4% for inflation. `Project` is the loop as a method. Its invariants tie it to the recursive specification functions `Balance` and `ContributionAfter`. The lemmas give the closed forms, the bounds and the monotonicity of those functions.
- **The alert decision** (module `Alerts`, `alert.dfy`). Under the "Art 151 (PPR)" regime, a final balance strictly above the fixed cap 3714612 gives a warning and anything else a success. Every other regime, "Art 93" included, gives a success. The alert is a datatype: a warning carrying the two amounts its message quotes, or a success with one of the two reasons. It is not the formatted text.
- **The script's flow** (module `Diagnostic`, `diagnostic.dfy`). This is the projection followed by the alert, plus lemmas about the two together.

All money is exact `real` arithmetic: `tasa = 1/10`, the monthly factor `1 + tasa/12 = 121/120`, and the inflation factor `104/100`.

The alert compares the **final balance** with `tope_ppr` (app.py:82-83).

## Model

| member | source | states |
|---|---|---|
| `Projection.Months` | app.py:69-74 | the loop runs `(retiro - edad) * 12` months when `retiro > edad` and no month otherwise |
| `Projection.Project` | app.py:69-76 | the loop ends with `saldo` equal to the balance after `Months(edad, retiro)` months and `aporte` equal to `ahorro * 1.04^(months div 12)`, so the raise after the last month reaches `aporte` only; when `retiro <= edad` the balance is 0 and the contribution is unchanged |
| `Projection.ContributionClosedForm` | app.py:71-76 | after `k` months the contribution is `ahorro * 1.04^(k div 12)`: one raise per completed year |
| `Projection.SameYearSameDeposit` | app.py:74-76 | two months of the same contribution year (equal `(i - 1) div 12`) deposit the same amount |
| `Projection.FirstRaiseAfterTwelfthMonth` | app.py:74-76 | months 1 to 12 deposit `ahorro` and month 13 deposits `ahorro * 1.04`: the raise follows the twelfth deposit |
| `Projection.ContributionAtLeastSaving` | app.py:71-76 | with `ahorro >= 0` the contribution never falls below the saving |
| `Projection.ContributionStep` | app.py:76 | after a month whose index is a multiple of 12 the contribution is multiplied by 1.04 and after any other month it is unchanged; with `ahorro >= 0` it never decreases; with `ahorro > 0` it grows from month `k` to `k + 1` exactly when `k + 1` is a multiple of 12 |
| `Projection.DepositEarnsItsMonth` | app.py:75 | one month turns balance `b` and deposit `d` into `b * f + d * f` with `f = 1 + tasa/12`; with `ahorro > 0` this is strictly more than `b * f + d`, so the deposit earns that same month's interest |
| `Projection.BalanceNonNegative` | app.py:74-76 | with `ahorro >= 0` the balance is never negative |
| `Projection.BalanceStepMonotone` | app.py:74-76 | with `ahorro >= 0` the balance never decreases from one month to the next, and with `ahorro > 0` it strictly increases |
| `Projection.BalanceMonotone` | app.py:69-76 | with `ahorro >= 0` a longer horizon never gives a lower balance, and with `ahorro > 0` it gives a strictly higher one |
| `Projection.CompoundedDepositsShift` | app.py:75 | one more month of interest multiplies every already-compounded deposit by `1 + tasa/12` |
| `Projection.BalanceClosedForm` | app.py:74-76 | the balance after `n` months equals the sum, over the months `i` in `1..n`, of the deposit of month `i` times `(1 + tasa/12)^(n - i + 1)` |
| `Projection.DepositedAtLeast` | app.py:71-76 | with `ahorro >= 0` the total deposited over `n` months is at least `n * ahorro` |
| `Projection.BalanceCoversDeposits` | app.py:74-76 | with `ahorro >= 0` the balance is at least the total deposited times `1 + tasa/12` |
| `Alerts.Classify` | app.py:79-89 | the alert is a warning exactly when the regime is "Art 151 (PPR)" and the balance is strictly above 3714612; a warning quotes the balance and the cap; a success under PPR means "within the cap", and under any other regime "no amount cap" |
| `Alerts.CapBoundary` | app.py:72-87 | a balance exactly equal to the cap gives a success, and any balance above it gives a warning |
| `Alerts.Art93NeverWarns` | app.py:88-89 | "Art 93" gives the no-cap success whatever the balance |
| `Alerts.WarningUpwardClosed` | app.py:82-85 | under a fixed regime, a warning stays a warning when the balance grows |
| `Diagnostic.Diagnose` | app.py:69-89 | the script's final balance is the projection's, and its alert is the classification of that balance: a warning exactly when the regime is PPR and the balance exceeds the cap, the within-cap success for PPR at or below the cap, and the no-cap success for any other regime |
| `Diagnostic.EmptyHorizonNeverWarns` | app.py:69-87 | when `retiro <= edad` the final balance is 0 and no regime warns |
| `Diagnostic.LaterRetirementNeverLowers` | app.py:69-76 | with `ahorro >= 0`, a later retirement age never lowers the final balance |
| `Diagnostic.LaterRetirementKeepsWarning` | app.py:69-85 | with `ahorro >= 0`, a PPR warning at one retirement age stays a warning at every later one |
| `Diagnostic.PositiveHorizonPositiveBalance` | app.py:69-76 | with `ahorro > 0` and `retiro > edad` the final balance is strictly positive |

## Left out

- The Streamlit page: configuration, the input widgets, the info, warning and success boxes, the result display and the download button (app.py:8, 53-66, 92-115). These are presentation only. The regime, saving and ages become parameters of `Diagnose`. The inputs are the widgets' integers, and the saving is taken as an exact amount.
- PDF generation: `PDFReport.header`, `PDFReport.footer` and `crear_pdf_seguro` (app.py:11-50). This is a foreign library, file I/O for the logo, latin-1 encoding and an exception wrapper, with no logic of its own.
- The message texts and their number formatting (`:,.0f`, `:,.2f`). The alert records which message is chosen and the amounts it quotes, not the string.
- IEEE double rounding. The script computes in Python floats, and the model uses exact rationals. Float results can differ from the model in the last bits, so a balance within rounding of the cap may be classified differently.
