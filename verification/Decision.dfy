/** The oversold decision of internal/application/decision/rsi_oversold_evaluator.go. */
module Decision {
  import opened Wrappers
  import opened Decimals

  const THRESHOLD := 30.0

  datatype Decision = Decision(outcome: string, severity: string, confidence: real)

  /** `None` is an RSI that is no number. */
  function Evaluate(signalValue: Option<real>, round: real -> real): Option<Decision> {
    if signalValue.None? then None
    else
      var rsi := signalValue.value;
      if rsi < THRESHOLD then
        var confidence := 0.5 + 0.5 * (THRESHOLD - rsi) / THRESHOLD;
        Some(Decision("triggered", ClassifySeverity(rsi), round(if confidence > 1.0 then 1.0 else confidence)))
      else
        var confidence := 0.5 + 0.5 * (rsi - THRESHOLD) / (100.0 - THRESHOLD);
        Some(Decision("not_triggered", "none", round(if confidence > 1.0 then 1.0 else confidence)))
  }

  function ClassifySeverity(rsi: real): string {
    var distance := THRESHOLD - rsi;
    if distance >= 20.0 then "high" else if distance >= 10.0 then "moderate" else "low"
  }

  /**
   The confidence grows linearly with the distance from the threshold, from one half to 1 at an RSI of 0
   and of 100.
   */
  lemma ConfidenceIsDistance(rsi: real, round: real -> real)
    ensures Evaluate(Some(rsi), round).value.confidence ==
              round(if rsi <= 0.0 || rsi >= 100.0 then 1.0
                    else if rsi < 30.0 then 1.0 - rsi / 60.0
                    else 0.5 + (rsi - 30.0) / 140.0)
  {
  }
}
