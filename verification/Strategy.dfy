/**
 The mean reversion entry of internal/application/strategy/mean_reversion_entry_resolver.go and the
 severity scaling of internal/application/strategy/severity_scaling.go.
 */
module Strategy {
  import opened Wrappers
  import opened Decimals
  import Products

  const SEVERITY_SCALING := map["high" := 1.0, "moderate" := 0.9, "low" := 0.8]

  datatype Strategy = Strategy(direction: string, confidence: real)

  function SeverityFactor(severity: string, factors: map<string, real>): real {
    var normalized := Normalized(severity);
    if normalized in factors then factors[normalized] else 1.0
  }

  function Clamp(x: real): real {
    if x > 1.0 then 1.0 else if x < 0.0 then 0.0 else x
  }

  function Scaled(confidence: real, factor: real): real {
    Clamp(Products.Times(confidence, factor))
  }

  /** `None` when the confidence is no number. */
  function ScaleConfidence(confidence: Option<real>, severity: string, factors: map<string, real>,
      round: real -> real): Option<real> {
    if confidence.None? then None else Some(round(Scaled(confidence.value, SeverityFactor(severity, factors))))
  }

  function Resolve(outcome: string, confidence: Option<real>, severity: string, round: real -> real): Option<Strategy> {
    if outcome == "triggered" then
      var scaled := ScaleConfidence(confidence, severity, SEVERITY_SCALING, round);
      if scaled.None? then None else Some(Strategy("long", scaled.value))
    else if outcome == "not_triggered" || outcome == "insufficient" then Some(Strategy("flat", 0.0))
    else None
  }

  lemma ClampIsMonotone(x: real, y: real)
    requires x <= y
    ensures 0.0 <= Clamp(x) <= Clamp(y) <= 1.0
  {
  }

  /** The scaled confidence is between 0 and 1, and it grows with the confidence and with the factor. */
  lemma ScalingIsMonotone(x: real, y: real, severity: string, severity': string, factors: map<string, real>,
      round: real -> real)
    requires IsRounding(round) && 0.0 <= x <= y
    requires 0.0 <= SeverityFactor(severity, factors) <= SeverityFactor(severity', factors)
    ensures var a := ScaleConfidence(Some(x), severity, factors, round);
            var b := ScaleConfidence(Some(y), severity', factors, round);
            0.0 <= a.value <= b.value <= 1.0
  {
    hide SeverityFactor;
    var f, f' := SeverityFactor(severity, factors), SeverityFactor(severity', factors);
    Products.ProductMonotone(x, y, f, f', x * f, y * f');
    assert Grid(0) == 0.0 && Grid(10000) == 1.0;
    assert round(Grid(0)) == 0.0 && round(Grid(10000)) == 1.0;
    ClampIsMonotone(x * f, y * f');
  }

  /** A product of at least 0.4 stays at least 0.4. */
  lemma ScaledAtLeast(confidence: real, severity: string, factors: map<string, real>, round: real -> real)
    requires IsRounding(round) && confidence >= 0.5 && SeverityFactor(severity, factors) >= 0.8
    ensures ScaleConfidence(Some(confidence), severity, factors, round).value >= 0.4
  {
    hide SeverityFactor;
    var f := SeverityFactor(severity, factors);
    Products.ProductMonotone(0.5, confidence, 0.8, f, 0.4, confidence * f);
    assert Grid(4000) == 0.4 && round(Grid(4000)) == 0.4;
    ClampIsMonotone(0.4, confidence * f);
  }

  lemma TriggeredIsLong(confidence: real, severity: string, round: real -> real)
    ensures var s := Resolve("triggered", Some(confidence), severity, round);
            && s.Some? && s.value.direction == "long"
            && s.value.confidence == ScaleConfidence(Some(confidence), severity, SEVERITY_SCALING, round).value
  {
  }
}
