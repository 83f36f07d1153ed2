/**
 * The AQI classifier `aqi_band`: a composite index value is mapped to one
 * of six health-risk bands (AQICN / US-EPA breakpoints, each band inclusive
 * at its upper edge), or to "Unknown" when the value is missing.
 */
module Aqi {
  import opened Wrappers
  import opened Payload

  datatype Band =
    | Good
    | Moderate
    | SensitiveGroups
    | Unhealthy
    | VeryUnhealthy
    | Hazardous
    | Unknown
  {
    /** The category text stored in the `aqi_category` column. */
    function Category(): string {
      match this
      case Good => "Good"
      case Moderate => "Moderate"
      case SensitiveGroups => "Unhealthy for Sensitive Groups"
      case Unhealthy => "Unhealthy"
      case VeryUnhealthy => "Very Unhealthy"
      case Hazardous => "Hazardous"
      case Unknown => "Unknown"
    }

    /** The range text stored in the `aqi_range` column. */
    function Range(): string {
      match this
      case Good => "0-50"
      case Moderate => "51-100"
      case SensitiveGroups => "101-150"
      case Unhealthy => "151-200"
      case VeryUnhealthy => "201-300"
      case Hazardous => "300+"
      case Unknown => "n/a"
    }

    /** Severity order of the six numeric bands. */
    function Rank(): nat
      requires this != Unknown
    {
      match this
      case Good => 0
      case Moderate => 1
      case SensitiveGroups => 2
      case Unhealthy => 3
      case VeryUnhealthy => 4
      case Hazardous => 5
    }
  }

  /**
   * The breakpoint table, written independently of the comparison chain:
   * band `b` holds the reals in (Above(b), Upto(b)]; the Good band is
   * unbounded below and the Hazardous band unbounded above.
   */
  predicate InBand(v: real, b: Band) {
    match b
    case Good => v <= 50.0
    case Moderate => 50.0 < v <= 100.0
    case SensitiveGroups => 100.0 < v <= 150.0
    case Unhealthy => 150.0 < v <= 200.0
    case VeryUnhealthy => 200.0 < v <= 300.0
    case Hazardous => 300.0 < v
    case Unknown => false
  }

  /** IEEE `x <= t`: false for NaN. */
  predicate AtMost(x: Float, t: real) {
    match x
    case Finite(v) => v <= t
    case NegInf => true
    case PosInf => false
    case NaN => false
  }

  /** IEEE `a <= b` on two non-NaN floats. */
  predicate Le(a: Float, b: Float) {
    match (a, b)
    case (NaN, _) => false
    case (_, NaN) => false
    case (NegInf, _) => true
    case (_, PosInf) => true
    case (Finite(u), Finite(v)) => u <= v
    case (_, _) => false
  }

  /**
   * The `if aqi <= 50 ... else` chain of `aqi_band` on a float. Every
   * finite value lands in exactly one band, the one whose breakpoints hold
   * it; the infinities go to the extreme bands; NaN fails every comparison
   * and so falls through to Hazardous.
   */
  function Severity(x: Float): (b: Band)
    ensures b != Unknown
    ensures x.Finite? ==> InBand(x.value, b)
    ensures forall c: Band | x.Finite? && InBand(x.value, c) :: c == b
    ensures x.NegInf? ==> b == Good
    ensures x.PosInf? || x.NaN? ==> b == Hazardous
  {
    if AtMost(x, 50.0) then Good
    else if AtMost(x, 100.0) then Moderate
    else if AtMost(x, 150.0) then SensitiveGroups
    else if AtMost(x, 200.0) then Unhealthy
    else if AtMost(x, 300.0) then VeryUnhealthy
    else Hazardous
  }

  /** A higher value never lands in a less severe band. */
  lemma SeverityMonotone(a: Float, b: Float)
    requires Le(a, b)
    ensures Severity(a).Rank() <= Severity(b).Rank()
  {
  }

  /**
   * `aqi_band(aqi)` on whatever the payload held. `None` and a float NaN
   * give Unknown, and so does a one-element list holding one of them;
   * a list whose `pd.isna` has no truth value raises there. Anything else
   * goes through `float()`, which raises for lists, dicts and strings it
   * cannot read. `True` and `False` read as 1.0 and 0.0. A string that
   * reads as NaN is not NA to pandas, so it reaches the chain and lands in
   * Hazardous.
   */
  function AqiBand(aqi: Json, ps: Parsers): (r: Result<Band, Raised>)
    ensures r == Ok(Unknown) <==> NATruth(aqi) == Ok(true)
    ensures r.Err? <==> (aqi.JArr? && NATruth(aqi) != Ok(true)) || aqi.JObj? || (aqi.JStr? && ps.toFloat(aqi.s).None?)
    ensures aqi.JNum? && !aqi.n.NaN? ==> r == Ok(Severity(aqi.n))
    ensures aqi.JBool? ==> r == Ok(Good)
    ensures aqi.JStr? && ps.toFloat(aqi.s).Some? ==> r == Ok(Severity(ps.toFloat(aqi.s).value))
  {
    match NATruth(aqi)
    case Err(e) => Err(e)
    case Ok(na) =>
      if na then Ok(Unknown)
      else
        match aqi
        case JBool(b) => Ok(Severity(Finite(if b then 1.0 else 0.0)))
        case JNum(n) => Ok(Severity(n))
        case JStr(s) =>
          (match ps.toFloat(s)
           case Some(x) => Ok(Severity(x))
           case None => Err(Raised))
        case _ => Err(Raised)
  }

  /** The two columns `aqi_band` stamps on a row. */
  function Labels(b: Band): (string, string) {
    (b.Category(), b.Range())
  }
}
