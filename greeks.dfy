/**
 * The Black-Scholes Greeks calculator shared by the three dashboards
 * (`calculate_greeks` / `black_scholes_greeks`). Only its guard is modelled:
 * the closed form (logarithms, square roots, the normal distribution and the
 * rounding to 4 decimals) is a parameter `formula`, whose result is `None`
 * when the arithmetic raises and the `except` branch runs.
 */
module Greeks {
  import opened Common

  datatype Kind = Call | Put

  datatype Greeks = Greeks(delta: real, gamma: real, theta: real, vega: real)

  /** `{'delta': 0, 'gamma': 0, 'theta': 0, 'vega': 0}` */
  const Zero: Greeks := Greeks(0.0, 0.0, 0.0, 0.0)

  /**
   * The closed-form branch, on (S, K, T, r, sigma, kind): `Some` of the
   * rounded Greeks, or `None` when evaluating it raises.
   */
  type Formula = (real, real, real, real, real, Kind) -> Option<Greeks>

  /**
   * The guard: a contract at or past expiry (`T <= 0`) or without volatility
   * (`sigma <= 0`) gets the zero vector; otherwise the closed form, falling
   * back to the zero vector when it raises.
   */
  function CalculateGreeks(s: real, k: real, t: real, r: real, sigma: real, kind: Kind, formula: Formula): (g: Greeks)
    ensures t <= 0.0 || sigma <= 0.0 ==> g == Zero
    ensures g != Zero ==> t > 0.0 && sigma > 0.0 && formula(s, k, t, r, sigma, kind) == Some(g)
    ensures t > 0.0 && sigma > 0.0 && formula(s, k, t, r, sigma, kind).Some? ==> g == formula(s, k, t, r, sigma, kind).value
    ensures t > 0.0 && sigma > 0.0 && formula(s, k, t, r, sigma, kind).None? ==> g == Zero
  {
    if t <= 0.0 || sigma <= 0.0 then Zero
    else
      match formula(s, k, t, r, sigma, kind)
      case Some(v) => v
      case None => Zero
  }

  /** `days_to_exp / 365.0`: the time to expiry in years. */
  function YearsToExpiry(days: int): (t: real)
    ensures t <= 0.0 <==> days <= 0
    ensures t * 365.0 == days as real
  {
    days as real / 365.0
  }

  /** A contract expiring today or earlier gets the zero vector, whatever its volatility. */
  lemma ExpiredIsZero(s: real, k: real, days: int, r: real, sigma: real, kind: Kind, formula: Formula)
    requires days <= 0
    ensures CalculateGreeks(s, k, YearsToExpiry(days), r, sigma, kind, formula) == Zero
  {
  }
}
