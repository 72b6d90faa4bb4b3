/**
 The RSI sampler of internal/application/signal/rsi_sampler.go: Wilder's relative strength index over
 exact prices.
 */
module Rsi {
  import opened Wrappers
  import opened Products

  const PERIOD := 14

  datatype Signal = Signal(rsi: real, avgGain: real, avgLoss: real)

  function Gain(from: real, to: real): (g: real)
    ensures g >= 0.0
  {
    if to - from > 0.0 then to - from else 0.0
  }

  function Loss(from: real, to: real): (l: real)
    ensures l >= 0.0
  {
    if to - from > 0.0 then 0.0 else -(to - from)
  }

  /** The sum of the rises, or of the falls, between neighbouring prices. */
  function Moves(prices: seq<real>, up: bool): real {
    if |prices| < 2 then 0.0
    else Moves(prices[..|prices| - 1], up) + MoveAt(prices, |prices| - 1, up)
  }

  function Move(from: real, to: real, up: bool): (m: real)
    ensures m >= 0.0
  {
    if up then Gain(from, to) else Loss(from, to)
  }

  /** The move that ends with a given price of a stream. */
  function MoveAt(prices: seq<real>, i: nat, up: bool): (m: real)
    requires 0 < i < |prices|
    ensures m >= 0.0
  {
    Move(prices[i - 1], prices[i], up)
  }

  function Smooth(avg: real, x: real, n: nat): real
    requires n >= 1
  {
    (avg * (n as real - 1.0) + x) / n as real
  }

  function Plain(sum: real, n: nat): real
    requires n >= 1
  {
    sum / n as real
  }

  /** Wilder's average of the rises, or of the falls: the plain average of the first n, then smoothed. */
  function Average(prices: seq<real>, n: nat, up: bool): real
    requires n >= 1 && |prices| > n
    decreases |prices|
  {
    if |prices| == n + 1 then Plain(Moves(prices, up), n)
    else Smooth(Average(prices[..|prices| - 1], n, up), MoveAt(prices, |prices| - 1, up), n)
  }

  function Index(avgGain: real, avgLoss: real): real
    requires avgGain >= 0.0 && avgLoss >= 0.0
  {
    if avgLoss == 0.0 then 100.0
    else
      var rs := avgGain / avgLoss;
      assert rs >= 0.0 by { QuotientNonNegative(avgGain, avgLoss); }
      100.0 - 100.0 / (1.0 + rs)
  }

  lemma QuotientNonNegative(x: real, y: real)
    requires x >= 0.0 && y > 0.0
    ensures x / y >= 0.0
  {
    var q := x / y;
    assert q * y == x;
    assert q < 0.0 ==> q * y < 0.0;
  }

  // ---------------------------------------------------------------- arithmetic

  lemma Share(avgGain: real, avgLoss: real)
    requires avgGain >= 0.0 && avgLoss >= 0.0 && avgGain + avgLoss > 0.0
    ensures Index(avgGain, avgLoss) * (avgGain + avgLoss) == 100.0 * avgGain
  {
    if avgLoss > 0.0 {
      var rs := avgGain / avgLoss;
      QuotientNonNegative(avgGain, avgLoss);
      assert rs * avgLoss == avgGain;
      var part := 100.0 / (1.0 + rs);
      assert part * (1.0 + rs) == 100.0;
      assert part * (avgGain + avgLoss) == part * (1.0 + rs) * avgLoss by {
        assert (1.0 + rs) * avgLoss == avgLoss + avgGain;
        Associate(part, 1.0 + rs, avgLoss);
      }
    }
  }

  /** The index is the share of the rises, in per cent: 100 only without falls, 0 only with falls and no rises. */
  lemma IndexRange(avgGain: real, avgLoss: real)
    requires avgGain >= 0.0 && avgLoss >= 0.0
    ensures 0.0 <= Index(avgGain, avgLoss) <= 100.0
    ensures Index(avgGain, avgLoss) == 100.0 <==> avgLoss == 0.0
    ensures Index(avgGain, avgLoss) == 0.0 <==> avgGain == 0.0 && avgLoss > 0.0
  {
    var s := avgGain + avgLoss;
    if s > 0.0 {
      Share(avgGain, avgLoss);
      var r := Index(avgGain, avgLoss);
      Cancel(0.0, r, s, 0.0 * s, r * s);
      Cancel(r, 0.0, s, r * s, 0.0 * s);
      Cancel(r, 100.0, s, r * s, 100.0 * s);
      assert 100.0 * s == 100.0 * avgGain + 100.0 * avgLoss;
    }
  }

  lemma IndexScales(g: real, l: real, g': real, l': real, a: real)
    requires g >= 0.0 && l >= 0.0 && a > 0.0 && g' == a * g && l' == a * l
    ensures g' >= 0.0 && l' >= 0.0
    ensures Index(g', l') == Index(g, l)
  {
    var s, s' := g + l, g' + l';
    NonNegativeProduct(a, g);
    NonNegativeProduct(a, l);
    assert l > 0.0 ==> a * l > 0.0;
    if s > 0.0 {
      assert s' == a * s by { Distribute(a, g, l); }
      assert a * s > 0.0;
      Share(g, l);
      Share(g', l');
      hide Index;
      var r, r' := Index(g, l), Index(g', l');
      assert r * s' == r' * s' by {
        Associate(r, a, s);
        Associate(a, r, s);
        assert a * (100.0 * g) == 100.0 * (a * g);
      }
      Cancel(r', r, s', r' * s', r * s');
    }
  }

  lemma IndexReflects(avgGain: real, avgLoss: real)
    requires avgGain >= 0.0 && avgLoss >= 0.0
    ensures Index(avgLoss, avgGain) == 100.0 - Index(avgGain, avgLoss) <==> avgGain + avgLoss > 0.0
  {
    var s := avgGain + avgLoss;
    if s > 0.0 {
      Share(avgGain, avgLoss);
      Share(avgLoss, avgGain);
      var r := Index(avgGain, avgLoss);
      assert (100.0 - r) * s == 100.0 * s - r * s;
      Cancel(Index(avgLoss, avgGain), 100.0 - r, s, Index(avgLoss, avgGain) * s, (100.0 - r) * s);
    }
  }

  lemma IndexMonotone(g: real, l: real, g': real, l': real)
    requires 0.0 <= g <= g' && 0.0 <= l' <= l
    ensures Index(g, l) <= Index(g', l')
  {
    hide Index;
    IndexRange(g, l);
    IndexRange(g', l');
    if l' > 0.0 {
      Share(g, l);
      Share(g', l');
      CrossMultiply(g, l, g', l', Index(g, l), Index(g', l'));
    }
  }

  /** 100 g / (g + l) <= 100 g' / (g' + l') because g l' <= g' l. */
  lemma CrossMultiply(g: real, l: real, g': real, l': real, r: real, r': real)
    requires 0.0 <= g <= g' && 0.0 < l' <= l
    requires r * (g + l) == 100.0 * g && r' * (g' + l') == 100.0 * g'
    ensures r <= r'
  {
    var s, s' := g + l, g' + l';
    assert g * l' <= g' * l by {
      var down, over := g * (l - l'), (g' - g) * l;
      NonNegativeProduct(g, l - l');
      NonNegativeProduct(g' - g, l);
      assert down == g * l - g * l' && over == g' * l - g * l;
    }
    assert g * s' <= g' * s by {
      assert g * s' == g * g' + g * l' && g' * s == g' * g + g' * l;
    }
    Associate(100.0, g, s');
    Associate(100.0, g', s);
    assert (r * s) * s' == 100.0 * (g * s') && (r' * s') * s == 100.0 * (g' * s);
    Associate(r, s, s');
    Associate(r', s', s);
    var ss := s * s';
    assert ss > 0.0 && s' * s == ss;
    Cancel(r, r', ss, r * ss, r' * ss);
  }

  // ---------------------------------------------------------------- averages

  lemma SmoothBounds(avg: real, x: real, n: nat)
    requires n >= 2 && avg >= 0.0 && x >= 0.0
    ensures Smooth(avg, x, n) >= 0.0
    ensures Smooth(avg, x, n) == 0.0 <==> avg == 0.0 && x == 0.0
  {
    var m, y := n as real - 1.0, Smooth(avg, x, n);
    assert y * n as real == avg * m + x;
    assert avg * m >= 0.0 && (avg > 0.0 ==> avg * m > 0.0);
    Cancel(0.0, y, n as real, 0.0 * n as real, y * n as real);
    Cancel(y, 0.0, n as real, y * n as real, 0.0 * n as real);
  }

  /** No move in a direction was ever made. */
  predicate Unmoved(prices: seq<real>, up: bool) {
    forall i | 0 < i < |prices| :: MoveAt(prices, i, up) == 0.0
  }

  lemma UnmovedSoFar(prices: seq<real>, up: bool)
    requires |prices| >= 2
    ensures Unmoved(prices, up) <==> Unmoved(prices[..|prices| - 1], up) && MoveAt(prices, |prices| - 1, up) == 0.0
  {
    var init := prices[..|prices| - 1];
    assert forall i | 0 < i < |init| :: MoveAt(init, i, up) == MoveAt(prices, i, up);
  }

  lemma {:induction false} MovesBounds(prices: seq<real>, up: bool)
    ensures Moves(prices, up) >= 0.0
    ensures Moves(prices, up) == 0.0 <==> Unmoved(prices, up)
  {
    if |prices| >= 2 {
      MovesBounds(prices[..|prices| - 1], up);
      UnmovedSoFar(prices, up);
    }
  }

  /** Wilder's average never forgets: it is zero exactly when no move in its direction was ever made. */
  lemma {:induction false} AverageBounds(prices: seq<real>, n: nat, up: bool)
    requires n >= 2 && |prices| > n
    ensures Average(prices, n, up) >= 0.0
    ensures Average(prices, n, up) == 0.0 <==> Unmoved(prices, up)
    decreases |prices|
  {
    hide Smooth, Plain, Moves, MoveAt, Unmoved;
    if |prices| == n + 1 {
      MovesBounds(prices, up);
      PlainBounds(Moves(prices, up), n);
    } else {
      var init, last := prices[..|prices| - 1], |prices| - 1;
      AverageBounds(init, n, up);
      SmoothBounds(Average(init, n, up), MoveAt(prices, last, up), n);
      UnmovedSoFar(prices, up);
    }
  }

  lemma PlainBounds(sum: real, n: nat)
    requires n >= 1 && sum >= 0.0
    ensures Plain(sum, n) >= 0.0
    ensures Plain(sum, n) == 0.0 <==> sum == 0.0
  {
    var y := Plain(sum, n);
    assert y * n as real == sum;
    Cancel(0.0, y, n as real, 0.0, sum);
    Cancel(y, 0.0, n as real, sum, 0.0);
  }

  /** The moves of one stream are those of the other times a factor, in the same direction or in the opposite one. */
  ghost predicate Scaled(p: seq<real>, q: seq<real>, a: real, same: bool) {
    && |p| == |q|
    && (forall i | 0 < i < |p| :: MoveAt(q, i, true) == a * MoveAt(p, i, same))
    && (forall i | 0 < i < |p| :: MoveAt(q, i, false) == a * MoveAt(p, i, !same))
  }

  lemma ScaledPrefix(p: seq<real>, q: seq<real>, a: real, same: bool)
    requires Scaled(p, q, a, same) && p != []
    ensures Scaled(p[..|p| - 1], q[..|p| - 1], a, same)
  {
    var last := |p| - 1;
    assert forall i, up | 0 < i < last :: MoveAt(p[..last], i, up) == MoveAt(p, i, up);
    assert forall i, up | 0 < i < last :: MoveAt(q[..last], i, up) == MoveAt(q, i, up);
  }

  lemma {:induction false} MovesScale(p: seq<real>, q: seq<real>, a: real, same: bool, up: bool)
    requires Scaled(p, q, a, same)
    ensures Moves(q, up) == a * Moves(p, up == same)
  {
    hide MoveAt, Moves;
    if |p| < 2 {
      NoMoves(p, up == same);
      NoMoves(q, up);
    } else {
      var last := |p| - 1;
      OneMoreMove(p, up == same);
      OneMoreMove(q, up);
      ScaledPrefix(p, q, a, same);
      MovesScale(p[..last], q[..last], a, same, up);
      SumScales(a, Moves(p[..last], up == same), MoveAt(p, last, up == same), Moves(p, up == same),
        Moves(q[..last], up), MoveAt(q, last, up), Moves(q, up));
    }
  }

  lemma NoMoves(prices: seq<real>, up: bool)
    requires |prices| < 2
    ensures Moves(prices, up) == 0.0
  {
  }

  lemma OneMoreMove(prices: seq<real>, up: bool)
    requires |prices| >= 2
    ensures Moves(prices, up) == Moves(prices[..|prices| - 1], up) + MoveAt(prices, |prices| - 1, up)
  {
  }

  lemma SumScales(a: real, x: real, y: real, s: real, x': real, y': real, s': real)
    requires s == x + y && s' == x' + y' && x' == a * x && y' == a * y
    ensures s' == a * s
  {
    Distribute(a, x, y);
  }

  lemma SmoothScales(avg: real, x: real, avg': real, x': real, n: nat, a: real)
    requires n >= 1 && avg' == a * avg && x' == a * x
    ensures Smooth(avg', x', n) == a * Smooth(avg, x, n)
  {
    var m, y, z := n as real - 1.0, Smooth(avg, x, n), Smooth(avg', x', n);
    assert y * n as real == avg * m + x;
    assert z * n as real == avg' * m + x';
    assert avg' * m + x' == a * (avg * m + x) by {
      Distribute(a, avg * m, x);
      Associate(a, avg, m);
    }
    Associate(a, y, n as real);
    Cancel(z, a * y, n as real, z * n as real, a * y * n as real);
  }

  lemma PlainScales(x: real, x': real, n: nat, a: real)
    requires n >= 1 && x' == a * x
    ensures Plain(x', n) == a * Plain(x, n)
  {
    var y, z := Plain(x, n), Plain(x', n);
    assert y * n as real == x && z * n as real == x';
    Associate(a, y, n as real);
    Cancel(z, a * y, n as real, z * n as real, a * y * n as real);
  }

  lemma {:induction false} AverageScales(p: seq<real>, q: seq<real>, n: nat, a: real, same: bool, up: bool)
    requires n >= 1 && |p| > n && Scaled(p, q, a, same)
    ensures Average(q, n, up) == a * Average(p, n, up == same)
    decreases |p|
  {
    hide MoveAt, Moves, Smooth, Plain;
    if |p| == n + 1 {
      MovesScale(p, q, a, same, up);
      PlainScales(Moves(p, up == same), Moves(q, up), n, a);
    } else {
      var last := |p| - 1;
      ScaledPrefix(p, q, a, same);
      AverageScales(p[..last], q[..last], n, a, same, up);
      assert MoveAt(q, last, up) == a * MoveAt(p, last, up == same);
      SmoothScales(Average(p[..last], n, up == same), MoveAt(p, last, up == same), Average(q[..last], n, up),
          MoveAt(q, last, up), n, a);
    }
  }

  // ---------------------------------------------------------------- the laws of the indicator

  /** The index after a stream of prices. */
  function RsiOf(prices: seq<real>, n: nat): real
    requires n >= 2 && |prices| > n
  {
    AverageBounds(prices, n, true);
    AverageBounds(prices, n, false);
    Index(Average(prices, n, true), Average(prices, n, false))
  }

  /**
   The index is between 0 and 100; it is 100 exactly when the prices never fell, 0 exactly when they never
   rose but fell.
   */
  lemma RsiRange(prices: seq<real>, n: nat)
    requires n >= 2 && |prices| > n
    ensures 0.0 <= RsiOf(prices, n) <= 100.0
    ensures RsiOf(prices, n) == 100.0 <==> NeverMoves(prices, false)
    ensures RsiOf(prices, n) == 0.0 <==> NeverMoves(prices, true) && !NeverMoves(prices, false)
  {
    hide Average, Index;
    AverageBounds(prices, n, true);
    AverageBounds(prices, n, false);
    IndexRange(Average(prices, n, true), Average(prices, n, false));
    MoveMeaning(prices);
  }

  /** No price of the stream is higher, or none is lower, than the one before it. */
  predicate NeverMoves(prices: seq<real>, up: bool) {
    forall i, j | 0 < i < |prices| && j == i - 1 :: if up then prices[i] <= prices[j] else prices[j] <= prices[i]
  }

  lemma MoveMeaning(prices: seq<real>)
    ensures forall up :: NeverMoves(prices, up) <==> Unmoved(prices, up)
  {
    forall up | Unmoved(prices, up)
      ensures NeverMoves(prices, up)
    {
      forall i, j | 0 < i < |prices| && j == i - 1
        ensures if up then prices[i] <= prices[j] else prices[j] <= prices[i]
      {
        assert MoveAt(prices, i, up) == 0.0;
      }
    }
  }

  /** Neither the unit of the prices nor a constant added to them matters. */
  lemma AffineInvariance(p: seq<real>, q: seq<real>, n: nat, a: real, b: real)
    requires n >= 2 && |p| > n && a > 0.0
    requires |q| == |p| && forall i | 0 <= i < |p| :: q[i] == a * p[i] + b
    ensures RsiOf(q, n) == RsiOf(p, n)
  {
    hide Average, Index;
    forall i, up | 0 < i < |p|
      ensures MoveAt(q, i, up) == a * MoveAt(p, i, up)
    {
      var d := p[i] - p[i - 1];
      assert q[i] - q[i - 1] == a * d;
      assert d > 0.0 ==> a * d > 0.0;
      assert d <= 0.0 ==> a * d <= 0.0;
    }
    assert Scaled(p, q, a, true);
    AverageScales(p, q, n, a, true, true);
    AverageScales(p, q, n, a, true, false);
    AverageBounds(p, n, true);
    AverageBounds(p, n, false);
    AverageBounds(q, n, true);
    AverageBounds(q, n, false);
    IndexScales(Average(p, n, true), Average(p, n, false), Average(q, n, true), Average(q, n, false), a);
  }

  predicate Flat(prices: seq<real>) {
    NeverMoves(prices, true) && NeverMoves(prices, false)
  }

  /**
   Turning a stream of prices upside down turns the index into its complement, exactly when the
   prices were not all the same: a flat stream has index 100, and so has its reflection.
   */
  lemma Reflection(p: seq<real>, q: seq<real>, n: nat, c: real)
    requires n >= 2 && |p| > n
    requires |q| == |p| && forall i | 0 <= i < |p| :: q[i] == c - p[i]
    ensures RsiOf(q, n) == 100.0 - RsiOf(p, n) <==> !Flat(p)
    ensures Flat(p) ==> RsiOf(p, n) == RsiOf(q, n) == 100.0
  {
    hide Average, Index;
    forall i, up | 0 < i < |p|
      ensures MoveAt(q, i, up) == 1.0 * MoveAt(p, i, !up)
    {
    }
    assert Scaled(p, q, 1.0, false);
    AverageScales(p, q, n, 1.0, false, true);
    AverageScales(p, q, n, 1.0, false, false);
    AverageBounds(p, n, true);
    AverageBounds(p, n, false);
    var g, l := Average(p, n, true), Average(p, n, false);
    IndexReflects(g, l);
    IndexRange(g, l);
    IndexRange(l, g);
    MoveMeaning(p);
  }

  lemma SmoothMonotone(avg: real, x: real, y: real, n: nat)
    requires n >= 1 && x <= y
    ensures Smooth(avg, x, n) <= Smooth(avg, y, n)
  {
    var u, v := Smooth(avg, x, n), Smooth(avg, y, n);
    assert u * n as real == avg * (n as real - 1.0) + x;
    assert v * n as real == avg * (n as real - 1.0) + y;
    Cancel(u, v, n as real, u * n as real, v * n as real);
  }

  lemma PlainMonotone(x: real, y: real, n: nat)
    requires n >= 1 && x <= y
    ensures Plain(x, n) <= Plain(y, n)
  {
    Cancel(Plain(x, n), Plain(y, n), n as real, x, y);
  }

  /** Each average grows, or falls, with the last move alone. */
  lemma AverageOfLastMove(before: seq<real>, x: real, y: real, n: nat, up: bool)
    requires n >= 1 && |before| >= n
    requires Move(before[|before| - 1], x, up) <= Move(before[|before| - 1], y, up)
    ensures Average(before + [x], n, up) <= Average(before + [y], n, up)
  {
    hide Move, Smooth, Plain;
    var p, q, last := before + [x], before + [y], before[|before| - 1];
    assert p[..|before|] == before && q[..|before|] == before;
    assert MoveAt(p, |before|, up) == Move(last, x, up) && MoveAt(q, |before|, up) == Move(last, y, up);
    if |before| == n {
      PlainMonotone(Moves(p, up), Moves(q, up), n);
    } else {
      SmoothMonotone(Average(before, n, up), Move(last, x, up), Move(last, y, up), n);
    }
  }

  /** Wilder's smoothing: the first average is that of the first n moves, and each further move counts one n-th. */
  lemma WilderWeights(before: seq<real>, x: real, n: nat, up: bool)
    requires n >= 1 && |before| >= n
    ensures var next := Average(before + [x], n, up);
            if |before| == n then n as real * next == Moves(before + [x], up)
            else n as real * next == (n as real - 1.0) * Average(before, n, up) + Move(before[|before| - 1], x, up)
  {
    hide Move, Moves, Smooth, Plain;
    var p := before + [x];
    assert p[..|before|] == before;
    assert MoveAt(p, |before|, up) == Move(before[|before| - 1], x, up);
    if |before| == n {
      TimesPlain(Moves(p, up), n);
    } else {
      TimesSmooth(Average(before, n, up), Move(before[|before| - 1], x, up), n);
    }
  }

  lemma TimesPlain(sum: real, n: nat)
    requires n >= 1
    ensures n as real * Plain(sum, n) == sum
  {
  }

  lemma TimesSmooth(avg: real, x: real, n: nat)
    requires n >= 1
    ensures n as real * Smooth(avg, x, n) == (n as real - 1.0) * avg + x
  {
    var m, y := n as real - 1.0, Smooth(avg, x, n);
    assert y * n as real == avg * m + x;
  }

  function Power(x: real, m: nat): real {
    if m == 0 then 1.0 else x * Power(x, m - 1)
  }

  /** `m` times the last price again. */
  function Standing(prices: seq<real>, m: nat): (r: seq<real>)
    requires prices != []
    ensures |r| == |prices| + m
  {
    prices + seq(m, _ => prices[|prices| - 1])
  }

  /** While the price stands still, both averages fade by the same ratio, one n-th of them at each price. */
  lemma AveragesFade(before: seq<real>, n: nat, m: nat, up: bool)
    requires n >= 1 && |before| > n
    ensures Average(Standing(before, m), n, up) * Power(n as real, m) ==
              Average(before, n, up) * Power(n as real - 1.0, m)
  {
    hide *;
    Faded(before, n, m, up, Average(before, n, up), Average(Standing(before, m), n, up),
      Power(n as real, m), Power(n as real - 1.0, m));
  }

  lemma {:induction false} Faded(before: seq<real>, n: nat, m: nat, up: bool, first: real, now: real, p: real, q: real)
    requires n >= 1 && |before| > n
    requires first == Average(before, n, up) && now == Average(Standing(before, m), n, up)
    requires p == Power(n as real, m) && q == Power(n as real - 1.0, m)
    ensures now * p == first * q
    decreases m
  {
    hide *;
    StandingStill(before, m);
    PowerGrows(n as real, m);
    PowerGrows(n as real - 1.0, m);
    if m > 0 {
      var init, last := Standing(before, m - 1), before[|before| - 1];
      var avg, p', q' := Average(init, n, up), Power(n as real, m - 1), Power(n as real - 1.0, m - 1);
      Faded(before, n, m - 1, up, first, avg, p', q');
      StandingStill(before, m - 1);
      NoMove(last, up);
      WilderStep(init, last, n, up, avg, now);
      Fade(n as real, n as real - 1.0, now, avg, p', p, first, q', q);
    }
  }

  lemma WilderStep(before: seq<real>, x: real, n: nat, up: bool, avg: real, next: real)
    requires n >= 1 && |before| > n && Move(before[|before| - 1], x, up) == 0.0
    requires avg == Average(before, n, up) && next == Average(before + [x], n, up)
    ensures n as real * next == (n as real - 1.0) * avg
  {
    hide Average, Move;
    WilderWeights(before, x, n, up);
  }

  lemma StandingStill(before: seq<real>, m: nat)
    requires before != []
    ensures Standing(before, m)[|before| + m - 1] == before[|before| - 1]
    ensures Standing(before, m) == if m == 0 then before else Standing(before, m - 1) + [before[|before| - 1]]
  {
  }

  lemma PowerGrows(x: real, m: nat)
    ensures Power(x, m) == if m == 0 then 1.0 else x * Power(x, m - 1)
  {
  }

  lemma NoMove(price: real, up: bool)
    ensures Move(price, price, up) == 0.0
  {
  }

  lemma Fade(n: real, m: real, next: real, avg: real, p: real, p': real, first: real, q: real, q': real)
    requires n * next == m * avg && avg * p == first * q && p' == n * p && q' == m * q
    ensures next * p' == first * q'
  {
    Associate(next, n, p);
    assert next * n == n * next;
    Associate(m, avg, p);
    Associate(m, first, q);
    Associate(first, m, q);
    assert m * first == first * m;
  }

  /** Of two streams that differ in the last price only, the one that ends higher does not have the lower index. */
  lemma MonotoneInLastPrice(before: seq<real>, low: real, high: real, n: nat)
    requires n >= 2 && |before| >= n && low <= high
    ensures RsiOf(before + [low], n) <= RsiOf(before + [high], n)
  {
    hide Average, Index;
    var p, q := before + [low], before + [high];
    AverageOfLastMove(before, low, high, n, true);
    AverageOfLastMove(before, high, low, n, false);
    AverageBounds(p, n, true);
    AverageBounds(p, n, false);
    AverageBounds(q, n, true);
    AverageBounds(q, n, false);
    IndexMonotone(Average(p, n, true), Average(p, n, false), Average(q, n, true), Average(q, n, false));
  }

  // ---------------------------------------------------------------- the sampler

  class RsiSampler {
    const period: nat
    var prices: seq<real>
    var prevClose: real
    var avgGain: real
    var avgLoss: real
    var warmedUp: bool

    /** Every price that could be parsed. */
    ghost var closes: seq<real>

    /** The smoothed state is that of all prices ever seen, although only the last one is kept. */
    ghost predicate Valid()
      reads this
    {
      && period >= 2
      && warmedUp == (|closes| > period)
      && (!warmedUp ==> prices == closes)
      && (warmedUp ==>
            && prices == [] && prevClose == closes[|closes| - 1]
            && avgGain == Average(closes, period, true) && avgLoss == Average(closes, period, false))
    }

    constructor ()
      ensures Valid() && closes == [] && period == 14
    {
      period, prices, closes := PERIOD, [], [];
      prevClose, avgGain, avgLoss, warmedUp := 0.0, 0.0, 0.0, false;
    }

    /** `None` is a close price that is no number. */
    method AddClose(closePrice: Option<real>) returns (signal: Option<Signal>)
      requires Valid()
      modifies this
      ensures Valid()
      ensures closes == old(closes) + if closePrice.Some? then [closePrice.value] else []
      ensures signal.Some? <==> closePrice.Some? && |closes| > period
      ensures signal.Some? ==>
                signal.value ==
                  Signal(RsiOf(closes, period), Average(closes, period, true), Average(closes, period, false))
    {
      hide Index, Move, Smooth;
      if closePrice.None? {
        assert closes + [] == closes;
        return None;
      }
      var price := closePrice.value;
      ghost var before := closes;
      closes := closes + [price];
      assert closes[..|before|] == before;
      if !warmedUp {
        prices := prices + [price];
        if |prices| <= period {
          return None;
        }
        var gainSum, lossSum := SumMoves();
        avgGain := gainSum / period as real;
        avgLoss := lossSum / period as real;
        prevClose := price;
        warmedUp := true;
        prices := [];
        AverageBounds(closes, period, true);
        AverageBounds(closes, period, false);
        return Some(Signal(Index(avgGain, avgLoss), avgGain, avgLoss));
      }
      var gain, loss := GainAndLoss(prevClose, price);
      avgGain := SmoothStep(avgGain, gain);
      avgLoss := SmoothStep(avgLoss, loss);
      prevClose := price;
      AverageBounds(closes, period, true);
      AverageBounds(closes, period, false);
      signal := Some(Signal(Index(avgGain, avgLoss), avgGain, avgLoss));
    }

    method GainAndLoss(from: real, to: real) returns (gain: real, loss: real)
      ensures gain == Move(from, to, true) && loss == Move(from, to, false)
    {
      var change := to - from;
      gain, loss := 0.0, 0.0;
      if change > 0.0 {
        gain := change;
      } else {
        loss := -change;
      }
    }

    method SmoothStep(avg: real, x: real) returns (next: real)
      requires period >= 1
      ensures next == Smooth(avg, x, period)
    {
      var p := period as real;
      next := (avg * (p - 1.0) + x) / p;
    }

    /** The sums of the rises and of the falls of the first prices. */
    method SumMoves() returns (gainSum: real, lossSum: real)
      requires |prices| == period + 1
      ensures gainSum == Moves(prices, true) && lossSum == Moves(prices, false)
    {
      gainSum, lossSum := 0.0, 0.0;
      for i := 1 to period + 1
        invariant gainSum == Moves(prices[..i], true) && lossSum == Moves(prices[..i], false)
      {
        assert prices[..i + 1][..i] == prices[..i];
        var change := prices[i] - prices[i - 1];
        if change > 0.0 {
          gainSum := gainSum + change;
        } else {
          lossSum := lossSum + -change;
        }
      }
      assert prices[..period + 1] == prices;
    }
  }
}
