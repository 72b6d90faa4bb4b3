/**
 The position exposure evaluator of internal/application/risk/position_exposure_evaluator.go and the
 factor tables of internal/application/risk/risk_scaling.go.
 */
module Risk {
  import opened Wrappers
  import opened Decimals
  import Products

  const MAX_POSITION_PCT := 0.02
  const MAX_PORTFOLIO_EXPOSURE_PCT := 0.10

  const CONFIDENCE_FACTOR := map[
    "mean_reversion_entry" := 0.90, "trend_following_entry" := 0.95, "squeeze_breakout_entry" := 0.93]
  const CONFIDENCE_DEFAULT := 0.92
  const SEVERITY_FACTOR := map["high" := 1.15, "moderate" := 1.0, "low" := 0.8]

  /** The position size is absent from an assessment that allows no position. */
  datatype Assessment = Assessment(disposition: string, confidence: real, maxPositionSize: Option<real>)

  function LookupFactor(key: string, factors: map<string, real>, default: real): real {
    if key in factors then factors[key] else default
  }

  function LookupSeverityFactor(severity: string, factors: map<string, real>): real {
    var normalized := Normalized(severity);
    if normalized == "" || normalized == "none" then 1.0
    else if normalized in factors then factors[normalized]
    else 1.0
  }

  /** The limits of an evaluator. */
  datatype Limits = Limits(maxPosition: real, maxExposure: real)

  const DEFAULT_LIMITS := Limits(MAX_POSITION_PCT, MAX_PORTFOLIO_EXPOSURE_PCT)

  /** The position limit, adjusted by the severity of the decision. */
  function Effective(limits: Limits, severity: string): real {
    Products.Times(limits.maxPosition, LookupSeverityFactor(severity, SEVERITY_FACTOR))
  }

  /** What is asked for: a share of the limit, never more than all of it. */
  function Requested(effective: real, confidence: real): real {
    Least(Products.Times(confidence, effective), effective)
  }

  function Least(x: real, y: real): real {
    if x > y then y else x
  }

  /** What a type of strategy keeps of its confidence. */
  function Kept(confidence: real, strategyType: string): real {
    confidence * LookupFactor(strategyType, CONFIDENCE_FACTOR, CONFIDENCE_DEFAULT)
  }

  /** `None` as confidence is text that is no number. */
  function Evaluate(limits: Limits, strategyType: string, direction: string, confidence: Option<real>, severity: string,
      round: real -> real): Option<Assessment>
  {
    var effective := Effective(limits, severity);
    if direction == "flat" then Some(Assessment("approved", 1.0, None))
    else if direction != "long" && direction != "short" then None
    else if confidence.None? then None
    else if confidence.value <= 0.0 then Some(Assessment("rejected", 0.0, None))
    else
      var requested := Requested(effective, confidence.value);
      var riskConfidence := round(Kept(confidence.value, strategyType));
      if requested <= effective && requested <= limits.maxExposure then
        Some(Assessment("approved", riskConfidence, Some(round(requested))))
      else
        var capped := if effective > limits.maxExposure then limits.maxExposure else effective;
        Some(Assessment("modified", riskConfidence, Some(round(capped))))
  }

  lemma RequestedAtMost(effective: real, confidence: real)
    ensures Requested(effective, confidence) <= effective
  {
  }

  /**
   Whatever the limits: an assessment of a position is rejected exactly without confidence, modified
   exactly when the request exceeds the portfolio limit, and its size is then that limit; the check
   against the position limit never decides.
   */
  lemma Dispositions(limits: Limits, strategyType: string, direction: string, confidence: real, severity: string,
      round: real -> real)
    requires direction == "long" || direction == "short"
    ensures var a := Evaluate(limits, strategyType, direction, Some(confidence), severity, round);
            var requested := Requested(Effective(limits, severity), confidence);
            && a.Some?
            && (a.value.disposition == "rejected" <==> confidence <= 0.0)
            && (a.value.disposition == "modified" <==> confidence > 0.0 && requested > limits.maxExposure)
            && a.value.maxPositionSize == if confidence <= 0.0 then None
                      else Some(round(Least(requested, limits.maxExposure)))
  {
    hide Effective, Requested, Kept;
    RequestedAtMost(Effective(limits, severity), confidence);
  }

  /**
   For limits that are not negative: size and risk confidence grow with confidence and severity; the
   size exceeds neither limit, and the risk confidence not the strategy's own.
   */
  lemma SizeIsMonotone(limits: Limits, direction: string, x: real, y: real, severity: string, severity': string,
      strategyType: string, round: real -> real)
    requires IsRounding(round) && (direction == "long" || direction == "short")
    requires 0.0 <= limits.maxExposure && 0.0 < x <= y
    requires 0.0 <= Effective(limits, severity) <= Effective(limits, severity')
    ensures var a := Evaluate(limits, strategyType, direction, Some(x), severity, round);
            var b := Evaluate(limits, strategyType, direction, Some(y), severity', round);
            && a.Some? && b.Some? && a.value.maxPositionSize.Some? && b.value.maxPositionSize.Some?
            && 0.0 <= a.value.maxPositionSize.value <= b.value.maxPositionSize.value
            && b.value.maxPositionSize.value <= round(limits.maxExposure)
            && b.value.maxPositionSize.value <= round(Effective(limits, severity'))
            && 0.0 <= a.value.confidence <= b.value.confidence <= round(y)
            && (strategyType == "mean_reversion_entry" ==> b.value.confidence <= round(y * 0.9))
  {
    hide Effective, Requested, Evaluate, Kept;
    Dispositions(limits, strategyType, direction, x, severity, round);
    Dispositions(limits, strategyType, direction, y, severity', round);
    RequestIsMonotone(Effective(limits, severity), Effective(limits, severity'), x, y);
    LeastIsMonotone(Requested(Effective(limits, severity), x), Requested(Effective(limits, severity'), y),
      limits.maxExposure, limits.maxExposure);
    ConfidenceIsMonotone(limits, direction, x, y, severity, severity', strategyType, round);
    assert Grid(0) == 0.0 && round(Grid(0)) == 0.0;
  }

  lemma FactorRange(strategyType: string)
    ensures 0.9 <= LookupFactor(strategyType, CONFIDENCE_FACTOR, CONFIDENCE_DEFAULT) <= 1.0
    ensures LookupFactor("mean_reversion_entry", CONFIDENCE_FACTOR, CONFIDENCE_DEFAULT) == 0.9
  {
  }

  lemma ConfidenceIsMonotone(limits: Limits, direction: string, x: real, y: real, severity: string, severity': string,
      strategyType: string, round: real -> real)
    requires IsRounding(round) && (direction == "long" || direction == "short") && 0.0 < x <= y
    ensures var a := Evaluate(limits, strategyType, direction, Some(x), severity, round);
            var b := Evaluate(limits, strategyType, direction, Some(y), severity', round);
            && a.Some? && b.Some? && 0.0 <= a.value.confidence <= b.value.confidence <= round(y)
            && (strategyType == "mean_reversion_entry" ==> b.value.confidence <= round(y * 0.9))
  {
    hide Effective, Requested, Kept;
    KeptIsMonotone(x, y, strategyType);
    assert Grid(0) == 0.0 && round(Grid(0)) == 0.0;
  }

  lemma KeptIsMonotone(x: real, y: real, strategyType: string)
    requires 0.0 < x <= y
    ensures 0.0 <= Kept(x, strategyType) <= Kept(y, strategyType) <= y
    ensures strategyType == "mean_reversion_entry" ==> Kept(y, strategyType) == y * 0.9
  {
    hide LookupFactor;
    FactorRange(strategyType);
    var f := LookupFactor(strategyType, CONFIDENCE_FACTOR, CONFIDENCE_DEFAULT);
    Products.ProductMonotone(x, y, f, f, x * f, y * f);
    Products.ProductMonotone(y, y, f, 1.0, y * f, y);
  }

  lemma LeastIsMonotone(x: real, y: real, e: real, e': real)
    requires 0.0 <= x <= y && 0.0 <= e <= e'
    ensures 0.0 <= Least(x, e) <= Least(y, e') <= e'
  {
  }

  lemma RequestIsMonotone(e: real, e': real, x: real, y: real)
    requires 0.0 <= e <= e' && 0.0 <= x <= y
    ensures 0.0 <= Requested(e, x) <= Requested(e', y) <= e'
  {
    hide Least;
    Products.ProductMonotone(x, y, e, e', x * e, y * e');
    LeastIsMonotone(x * e, y * e', e, e');
  }
}
