/**
 From an RSI value to a paper order: the oversold decision, the mean reversion entry, the position
 exposure and the order, connected as the actors of internal/actors/scopes/derive connect them.
 */
module OrderChain {
  import opened Wrappers
  import opened Decimals
  import Decision
  import Strategy
  import Risk
  import PaperOrder
  import Products
  import Rsi

  const STRATEGY_TYPE := "mean_reversion_entry"

  /** What the stages make of one RSI value. */
  datatype Outcome = Outcome(
    decision: Decision.Decision, strategy: Strategy.Strategy, risk: Risk.Assessment, order: PaperOrder.Order)

  /** `None` if a stage gives up. */
  function Run(signalValue: Option<real>, round: real -> real): Option<Outcome> {
    var d := Decision.Evaluate(signalValue, round);
    if d.None? then None
    else
      var s := Strategy.Resolve(d.value.outcome, Some(d.value.confidence), d.value.severity, round);
      if s.None? then None
      else
        var r := Risk.Evaluate(Risk.DEFAULT_LIMITS, STRATEGY_TYPE, s.value.direction, Some(s.value.confidence),
            d.value.severity, round);
        if r.None? then None
        else Some(Outcome(d.value, s.value, r.value,
            PaperOrder.Evaluate(r.value.disposition, r.value.maxPositionSize, s.value.direction)))
  }

  lemma Labels()
    ensures Normalized("high") == "high" && Normalized("moderate") == "moderate" && Normalized("low") == "low"
  {
    hide Normalized;
    NormalizedLabel("high");
    NormalizedLabel("moderate");
    NormalizedLabel("low");
  }

  /** The factors of the severities the decision gives, in both tables. */
  lemma Factors(rsi: real)
    ensures var severity := Decision.ClassifySeverity(rsi);
            && Strategy.SeverityFactor(severity, Strategy.SEVERITY_SCALING) ==
                 (if rsi <= 10.0 then 1.0 else if rsi <= 20.0 then 0.9 else 0.8)
            && Risk.LookupSeverityFactor(severity, Risk.SEVERITY_FACTOR) ==
                 (if rsi <= 10.0 then 1.15 else if rsi <= 20.0 then 1.0 else 0.8)
    ensures Risk.DEFAULT_LIMITS == Risk.Limits(0.02, 0.1)
  {
    hide Normalized;
    Labels();
  }

  /** A triggered decision has at least confidence one half, and a lower RSI does not have less. */
  lemma DecisionIsMonotone(rsi: real, rsi': real, round: real -> real)
    requires IsRounding(round) && rsi <= rsi' < Decision.THRESHOLD
    ensures var d, d' := Decision.Evaluate(Some(rsi), round), Decision.Evaluate(Some(rsi'), round);
            && d == Some(Decision.Decision("triggered", Decision.ClassifySeverity(rsi), d.value.confidence))
            && d' == Some(Decision.Decision("triggered", Decision.ClassifySeverity(rsi'), d'.value.confidence))
            && 0.5 <= d'.value.confidence <= d.value.confidence <= 1.0
  {
    assert Grid(5000) == 0.5 && Grid(10000) == 1.0;
    assert round(Grid(5000)) == 0.5 && round(Grid(10000)) == 1.0;
  }

  /**
   The strategy of a triggered decision is long; a lower RSI does not give it less confidence, and none
   has less than 0.4.
   */
  lemma StrategyIsMonotone(rsi: real, rsi': real, confidence: real, confidence': real, round: real -> real)
    requires IsRounding(round) && rsi <= rsi' < Decision.THRESHOLD && 0.5 <= confidence' <= confidence <= 1.0
    ensures var s := Strategy.Resolve("triggered", Some(confidence), Decision.ClassifySeverity(rsi), round);
            var s' := Strategy.Resolve("triggered", Some(confidence'), Decision.ClassifySeverity(rsi'), round);
            && s.Some? && s'.Some? && s.value.direction == "long" && s'.value.direction == "long"
            && 0.4 <= s'.value.confidence <= s.value.confidence <= 1.0
  {
    hide Decision.ClassifySeverity, Strategy.SeverityFactor, Strategy.Resolve, Strategy.ScaleConfidence;
    Factors(rsi);
    Factors(rsi');
    var severity, severity' := Decision.ClassifySeverity(rsi), Decision.ClassifySeverity(rsi');
    Strategy.TriggeredIsLong(confidence, severity, round);
    Strategy.TriggeredIsLong(confidence', severity', round);
    Strategy.ScalingIsMonotone(confidence', confidence, severity', severity, Strategy.SEVERITY_SCALING, round);
    Strategy.ScaledAtLeast(confidence', severity', Strategy.SEVERITY_SCALING, round);
  }

  /** The risk of a long position with such a confidence is approved, with a size between 0.0064 and 0.023. */
  lemma RiskIsMonotone(rsi: real, rsi': real, confidence: real, confidence': real, round: real -> real)
    requires IsRounding(round) && rsi <= rsi' < Decision.THRESHOLD && 0.4 <= confidence' <= confidence <= 1.0
    ensures var severity, severity' := Decision.ClassifySeverity(rsi), Decision.ClassifySeverity(rsi');
            var r := Risk.Evaluate(Risk.DEFAULT_LIMITS, STRATEGY_TYPE, "long", Some(confidence), severity, round);
            var r' := Risk.Evaluate(Risk.DEFAULT_LIMITS, STRATEGY_TYPE, "long", Some(confidence'), severity', round);
            && r.Some? && r'.Some? && r.value.disposition == "approved" && r'.value.disposition == "approved"
            && r.value.maxPositionSize.Some? && r'.value.maxPositionSize.Some?
            && 0.0064 <= r'.value.maxPositionSize.value <= r.value.maxPositionSize.value <= 0.023
            && r'.value.confidence <= r.value.confidence <= 0.9
  {
    hide Decision.ClassifySeverity, Risk.LookupSeverityFactor, Risk.Evaluate, Risk.Requested, Risk.Effective;
    var limits, severity, severity' :=
        Risk.DEFAULT_LIMITS, Decision.ClassifySeverity(rsi), Decision.ClassifySeverity(rsi');
    Limits(rsi);
    Limits(rsi');
    Limits(25.0);
    var low := Decision.ClassifySeverity(25.0);
    Risk.SizeIsMonotone(limits, "long", confidence', confidence, severity', severity, STRATEGY_TYPE, round);
    Risk.SizeIsMonotone(limits, "long", 0.4, confidence', low, severity', STRATEGY_TYPE, round);
    LeastSize(low, round);
    Approved(rsi, confidence, round);
    Approved(rsi', confidence', round);
    Products.ProductMonotone(confidence, 1.0, 0.9, 0.9, confidence * 0.9, 0.9);
    assert Grid(230) == 0.023 && round(Grid(230)) == 0.023;
    assert Grid(9000) == 0.9 && round(Grid(9000)) == 0.9;
  }

  /** The position limit for each severity. */
  lemma Limits(rsi: real)
    ensures Risk.Effective(Risk.DEFAULT_LIMITS, Decision.ClassifySeverity(rsi)) ==
              (if rsi <= 10.0 then 0.023 else if rsi <= 20.0 then 0.02 else 0.016)
  {
    hide Decision.ClassifySeverity, Risk.LookupSeverityFactor;
    Factors(rsi);
  }

  lemma LeastSize(severity: string, round: real -> real)
    requires IsRounding(round) && Risk.Effective(Risk.DEFAULT_LIMITS, severity) == 0.016
    ensures var r := Risk.Evaluate(Risk.DEFAULT_LIMITS, STRATEGY_TYPE, "long", Some(0.4), severity, round);
            r.value.maxPositionSize == Some(0.0064)
  {
    hide Risk.Effective, Risk.Evaluate;
    Risk.Dispositions(Risk.DEFAULT_LIMITS, STRATEGY_TYPE, "long", 0.4, severity, round);
    assert Risk.Requested(0.016, 0.4) == 0.0064;
    assert Grid(64) == 0.0064 && round(Grid(64)) == 0.0064;
  }

  /** With the shipped limits a request never exceeds the portfolio limit. */
  lemma Approved(rsi: real, confidence: real, round: real -> real)
    requires confidence > 0.0
    ensures var severity := Decision.ClassifySeverity(rsi);
            var r := Risk.Evaluate(Risk.DEFAULT_LIMITS, STRATEGY_TYPE, "long", Some(confidence), severity, round);
            && r.Some? && r.value.disposition == "approved"
            && r.value.maxPositionSize ==
                 Some(round(Risk.Requested(Risk.Effective(Risk.DEFAULT_LIMITS, severity), confidence)))
  {
    hide Decision.ClassifySeverity, Risk.Requested, Risk.Effective, Risk.Kept;
    var severity := Decision.ClassifySeverity(rsi);
    Limits(rsi);
    Risk.RequestedAtMost(Risk.Effective(Risk.DEFAULT_LIMITS, severity), confidence);
    Risk.Dispositions(Risk.DEFAULT_LIMITS, STRATEGY_TYPE, "long", confidence, severity, round);
  }

  function Min(x: real, y: real): real {
    if y < x then y else x
  }

  function Clamped(x: real): real {
    if x < 0.0 then 0.0 else Min(x, 1.0)
  }

  /** The part of its confidence that a strategy keeps as risk confidence. */
  function KeptShare(strategyType: string): real {
    match strategyType
    case "mean_reversion_entry" => 0.9
    case "trend_following_entry" => 0.95
    case "squeeze_breakout_entry" => 0.93
    case _ => 0.92
  }

  /** The part of the position limit that a severity allows, however it is written. */
  function LimitShare(severity: string): real {
    match Normalized(severity)
    case "high" => 1.15
    case "low" => 0.8
    case _ => 1.0
  }

  /** The part of the confidence that a severity leaves an entry. */
  function EntryShare(severity: string): real {
    match Normalized(severity)
    case "moderate" => 0.9
    case "low" => 0.8
    case _ => 1.0
  }

  lemma SharesOfTexts(severity: string)
    ensures Risk.LookupSeverityFactor(severity, Risk.SEVERITY_FACTOR) == LimitShare(severity)
    ensures Strategy.SeverityFactor(severity, Strategy.SEVERITY_SCALING) == EntryShare(severity)
  {
    hide Normalized;
  }

  /**
   Entry, risk and order together, for all limits and all texts of a decision: the three known outcomes
   are answered, a trigger only with a confidence; a buy is a trigger whose scaled confidence is
   positive, and nothing is ever sold.
   */
  lemma EntriesTaken(limits: Risk.Limits, outcome: string, confidence: Option<real>, severity: string,
      round: real -> real)
    ensures var s := Strategy.Resolve(outcome, confidence, severity, round);
            && (s.Some? <==>
                  || (outcome == "triggered" && confidence.Some?)
                  || outcome == "not_triggered" || outcome == "insufficient")
            && (s.Some? ==>
                  var a := Risk.Evaluate(limits, STRATEGY_TYPE, s.value.direction, Some(s.value.confidence), severity,
                    round);
                  && a.Some?
                  && s.value == (if outcome == "triggered" then
                                   Strategy.Strategy("long",
                                     round(Clamped(Products.Times(confidence.value, EntryShare(severity)))))
                                 else Strategy.Strategy("flat", 0.0))
                  && var o := PaperOrder.Evaluate(a.value.disposition, a.value.maxPositionSize, s.value.direction);
                     && (o.side == PaperOrder.Buy <==> outcome == "triggered" && s.value.confidence > 0.0)
                     && o.side != PaperOrder.Sell && (o.side == PaperOrder.NoSide ==> o.quantity == 0.0))
  {
    hide Strategy.SeverityFactor, Strategy.Clamp, EntryShare, Clamped, Products.Times, Risk.Evaluate,
      Risk.Least, Risk.Requested, Risk.Effective;
    var s := Strategy.Resolve(outcome, confidence, severity, round);
    SharesOfTexts(severity);
    if s.Some? {
      PositionsTaken(limits, STRATEGY_TYPE, s.value.direction, Some(s.value.confidence), severity, round);
      if outcome == "triggered" {
        ClampedIsClamp(Products.Times(confidence.value, EntryShare(severity)));
      }
    }
  }

  lemma ClampedIsClamp(x: real)
    ensures Strategy.Clamp(x) == Clamped(x)
  {
  }

  /**
   Risk and order together, for all limits and all texts: a buy is a long strategy with a positive
   confidence, a sell a short one, nothing else is an order; the quantity is the smallest of the share
   of the limit that the confidence asks for, all of it, and the portfolio limit.
   */
  lemma PositionsTaken(limits: Risk.Limits, strategyType: string, direction: string, confidence: Option<real>,
      severity: string, round: real -> real)
    ensures var a := Risk.Evaluate(limits, strategyType, direction, confidence, severity, round);
            && (a.Some? <==> direction == "flat" || (direction in {"long", "short"} && confidence.Some?))
            && (a.Some? ==>
                  var o := PaperOrder.Evaluate(a.value.disposition, a.value.maxPositionSize, direction);
                  && (o.side == PaperOrder.Buy <==> direction == "long" && confidence.value > 0.0)
                  && (o.side == PaperOrder.Sell <==> direction == "short" && confidence.value > 0.0)
                  && (if o.side == PaperOrder.NoSide then o.quantity == 0.0
                      else a.value.maxPositionSize == Some(o.quantity))
                  && a.value.confidence ==
                       (if direction == "flat" then 1.0
                        else if confidence.value <= 0.0 then 0.0
                        else round(confidence.value * KeptShare(strategyType))))
            && (a.Some? && direction != "flat" && confidence.value > 0.0 ==>
                  var limit := Products.Times(limits.maxPosition, LimitShare(severity));
                  a.value.maxPositionSize == Some(round(Sized(confidence.value, limit, limits.maxExposure))))
            && (a.Some? && (direction == "flat" || confidence.value <= 0.0) ==> a.value.maxPositionSize.None?)
  {
    hide Risk.Requested, Risk.Effective, Risk.Least, LimitShare;
    assert Risk.LookupFactor(strategyType, Risk.CONFIDENCE_FACTOR, Risk.CONFIDENCE_DEFAULT) == KeptShare(strategyType);
    if direction in {"long", "short"} && confidence.Some? {
      Risk.Dispositions(limits, strategyType, direction, confidence.value, severity, round);
      SizeOfTexts(limits, confidence.value, severity);
    }
  }

  /** A share of a limit, not more than all of it, and not more than the portfolio limit. */
  function Sized(confidence: real, limit: real, maxExposure: real): real {
    Min(Min(Products.Times(confidence, limit), limit), maxExposure)
  }

  lemma SizeOfTexts(limits: Risk.Limits, confidence: real, severity: string)
    ensures Risk.Least(Risk.Requested(Risk.Effective(limits, severity), confidence), limits.maxExposure) ==
              Sized(confidence, Products.Times(limits.maxPosition, LimitShare(severity)), limits.maxExposure)
  {
    hide LimitShare, Risk.LookupSeverityFactor, Products.Times;
    SharesOfTexts(severity);
  }

  // ---------------------------------------------------------------- the chain in one line

  /** The part of the confidence that the severity of an oversold RSI leaves. */
  function Share(rsi: real): real {
    if rsi <= 10.0 then 1.0 else if rsi <= 20.0 then 0.9 else 0.8
  }

  /** The position limit that its severity allows. */
  function Limit(rsi: real): real {
    if rsi <= 10.0 then 0.023 else if rsi <= 20.0 then 0.02 else 0.016
  }

  /**
   The order of an RSI value, written down directly: the part of the limit that the confidence
   leaves, with one rounding for each stage.
   */
  function OrderSize(rsi: real, round: real -> real): real {
    if rsi >= 30.0 then 0.0
    else Part(Limit(rsi), Part(Share(rsi), round(if rsi <= 0.0 then 1.0 else 1.0 - rsi / 60.0), round), round)
  }

  function Part(whole: real, confidence: real, round: real -> real): real {
    round(whole * confidence)
  }

  lemma EntryConfidence(rsi: real, c: real, round: real -> real)
    requires 0.0 <= c <= 1.0
    ensures Strategy.ScaleConfidence(Some(c), Decision.ClassifySeverity(rsi), Strategy.SEVERITY_SCALING, round) ==
              Some(Part(Share(rsi), c, round))
  {
    hide Decision.ClassifySeverity, Strategy.SeverityFactor, Strategy.Scaled, Part;
    Factors(rsi);
    NoClamp(c, Share(rsi), round);
  }

  lemma PositionSize(rsi: real, s: real, round: real -> real)
    requires 0.0 < s <= 1.0
    ensures var severity := Decision.ClassifySeverity(rsi);
            var r := Risk.Evaluate(Risk.DEFAULT_LIMITS, STRATEGY_TYPE, "long", Some(s), severity, round);
            r.Some? && r.value.maxPositionSize == Some(Part(Limit(rsi), s, round))
  {
    hide Decision.ClassifySeverity, Risk.Evaluate, Risk.Effective, Risk.Requested, Part;
    Approved(rsi, s, round);
    Limits(rsi);
    NoCap(Limit(rsi), s, round);
  }

  /** The four stages refine that one line, for every RSI and every rounding. */
  lemma ClosedForm(rsi: real, round: real -> real)
    requires IsRounding(round)
    ensures Run(Some(rsi), round).Some? && Run(Some(rsi), round).value.order.quantity == OrderSize(rsi, round)
  {
    hide IsRounding, Decision.Evaluate, Decision.ClassifySeverity, Strategy.Resolve, Strategy.ScaleConfidence,
      Risk.Evaluate, Limit, Share, Part;
    BuysIffOversold(rsi, round);
    if rsi < Decision.THRESHOLD {
      DecisionIsMonotone(rsi, rsi, round);
      Decision.ConfidenceIsDistance(rsi, round);
      var c := Decision.Evaluate(Some(rsi), round).value.confidence;
      assert c == round(if rsi <= 0.0 then 1.0 else 1.0 - rsi / 60.0);
      StrategyIsMonotone(rsi, rsi, c, c, round);
      Strategy.TriggeredIsLong(c, Decision.ClassifySeverity(rsi), round);
      EntryConfidence(rsi, c, round);
      var s := Strategy.Resolve("triggered", Some(c), Decision.ClassifySeverity(rsi), round).value.confidence;
      PositionSize(rsi, s, round);
      RiskIsMonotone(rsi, rsi, s, s, round);
    }
  }

  lemma NoClamp(c: real, f: real, round: real -> real)
    requires 0.0 <= c <= 1.0 && 0.0 <= f <= 1.0
    ensures round(Strategy.Scaled(c, f)) == Part(f, c, round)
  {
    Products.ProductMonotone(c, 1.0, f, 1.0, c * f, 1.0);
    assert c * f == f * c;
  }

  lemma NoCap(e: real, s: real, round: real -> real)
    requires 0.0 <= s <= 1.0 && e >= 0.0
    ensures round(Risk.Requested(e, s)) == Part(e, s, round)
  {
    Products.ProductMonotone(s, 1.0, e, e, s * e, e);
    assert s * e == e * s;
  }

  /** Below the threshold the chain buys; not below it, it does nothing. */
  lemma BuysIffOversold(rsi: real, round: real -> real)
    requires IsRounding(round)
    ensures var o := Run(Some(rsi), round);
            && o.Some?
            && (rsi < Decision.THRESHOLD ==>
                  o.value.order.side == PaperOrder.Buy && 0.0064 <= o.value.order.quantity <= 0.023)
            && (rsi >= Decision.THRESHOLD ==> o.value.order == PaperOrder.Order(PaperOrder.NoSide, 0.0))
            && o.value.order.side != PaperOrder.Sell && o.value.risk.disposition == "approved"
  {
    if rsi < Decision.THRESHOLD {
      ChainIsMonotone(rsi, rsi, round);
    }
  }

  /** Lowering an oversold RSI never makes the order smaller. */
  lemma ChainIsMonotone(rsi: real, rsi': real, round: real -> real)
    requires IsRounding(round) && rsi <= rsi' < Decision.THRESHOLD
    ensures var o, o' := Run(Some(rsi), round), Run(Some(rsi'), round);
            && o.Some? && o'.Some?
            && o.value.risk.disposition == "approved" && o'.value.risk.disposition == "approved"
            && o.value.order.side == PaperOrder.Buy && o'.value.order.side == PaperOrder.Buy
            && 0.0064 <= o'.value.order.quantity <= o.value.order.quantity <= 0.023
  {
    hide Decision.Evaluate, Decision.ClassifySeverity, Strategy.Resolve, Risk.Evaluate;
    DecisionIsMonotone(rsi, rsi', round);
    var c, c' := Decision.Evaluate(Some(rsi), round).value.confidence,
        Decision.Evaluate(Some(rsi'), round).value.confidence;
    StrategyIsMonotone(rsi, rsi', c, c', round);
    var s := Strategy.Resolve("triggered", Some(c), Decision.ClassifySeverity(rsi), round).value.confidence;
    var s' := Strategy.Resolve("triggered", Some(c'), Decision.ClassifySeverity(rsi'), round).value.confidence;
    RiskIsMonotone(rsi, rsi', s, s', round);
  }

  /** End to end, for all RSI values: a lower one never yields a smaller order, and no order exceeds 0.023. */
  lemma LowerRsiNeverShrinksOrder(rsi: real, rsi': real, round: real -> real)
    requires IsRounding(round) && rsi <= rsi'
    ensures var o, o' := Run(Some(rsi), round), Run(Some(rsi'), round);
            && o.Some? && o'.Some?
            && 0.0 <= o'.value.order.quantity <= o.value.order.quantity <= 0.023
            && o.value.order.side != PaperOrder.Sell && o.value.risk.disposition != "modified"
  {
    hide Run;
    BuysIffOversold(rsi, round);
    BuysIffOversold(rsi', round);
    if rsi' < Decision.THRESHOLD {
      ChainIsMonotone(rsi, rsi', round);
    }
  }

  /** The largest order is the one of an RSI of 0, whatever the rounding. */
  lemma LargestOrder(round: real -> real)
    requires IsRounding(round)
    ensures Run(Some(0.0), round).Some? && Run(Some(0.0), round).value.order == PaperOrder.Order(PaperOrder.Buy, 0.023)
  {
    Factors(0.0);
    hide Strategy.SeverityFactor, Risk.LookupSeverityFactor, Risk.Kept;
    assert Grid(10000) == 1.0 && round(Grid(10000)) == 1.0;
    assert Grid(230) == 0.023 && round(Grid(230)) == 0.023;
  }

  /**
   From prices to orders: of two streams that differ in the last price only, the one that ends lower never
   gets the smaller order.
   */
  lemma LowerPriceNeverShrinksOrder(before: seq<real>, low: real, high: real, round: real -> real)
    requires IsRounding(round) && |before| >= Rsi.PERIOD && low <= high
    ensures var o := Run(Some(round(Rsi.RsiOf(before + [low], Rsi.PERIOD))), round);
            var o' := Run(Some(round(Rsi.RsiOf(before + [high], Rsi.PERIOD))), round);
            o.Some? && o'.Some? && o'.value.order.quantity <= o.value.order.quantity
  {
    hide Run, Rsi.RsiOf;
    Rsi.MonotoneInLastPrice(before, low, high, Rsi.PERIOD);
    LowerRsiNeverShrinksOrder(round(Rsi.RsiOf(before + [low], Rsi.PERIOD)),
        round(Rsi.RsiOf(before + [high], Rsi.PERIOD)), round);
  }

  /** Prices that only ever fell get the largest order; prices that never fell get none. */
  lemma ExtremeStreams(prices: seq<real>, round: real -> real)
    requires IsRounding(round) && |prices| > Rsi.PERIOD
    ensures var o := Run(Some(round(Rsi.RsiOf(prices, Rsi.PERIOD))), round);
            && o.Some?
            && (Rsi.NeverMoves(prices, true) && !Rsi.NeverMoves(prices, false) ==>
                  o.value.order == PaperOrder.Order(PaperOrder.Buy, 0.023))
            && (Rsi.NeverMoves(prices, false) ==> o.value.order == PaperOrder.Order(PaperOrder.NoSide, 0.0))
  {
    hide Run, Rsi.RsiOf;
    Rsi.RsiRange(prices, Rsi.PERIOD);
    var rsi := round(Rsi.RsiOf(prices, Rsi.PERIOD));
    BuysIffOversold(rsi, round);
    LargestOrder(round);
    assert Grid(0) == 0.0 && round(Grid(0)) == 0.0;
    assert Grid(1000000) == 100.0 && round(Grid(1000000)) == 100.0;
  }
}
