/**
 The token bucket of internal/application/execution/rate_limiter.go.

 The limiter is shared by concurrent callers and a refill goroutine, so its runs are sequences of
 steps in any interleaving.  A caller that waits for a token takes no step.
 */
module RateLimiter {

  datatype Step =
    | Admit    // a caller receives a token
    | Expire   // a caller's context is done before it gets one
    | Tick     // the ticker fires in the refill loop
    | Close    // the limiter is closed
    | LoopEnd  // the refill loop notices

  datatype Bucket = Bucket(tokens: nat, capacity: nat, closed: bool, refilling: bool)

  predicate Enabled(b: Bucket, e: Step) {
    match e
    case Admit => b.tokens > 0
    case Expire => true
    case Tick => b.refilling
    case Close => true
    case LoopEnd => b.refilling && b.closed
  }

  function After(b: Bucket, e: Step): Bucket
    requires Enabled(b, e)
  {
    match e
    case Admit => b.(tokens := b.tokens - 1)
    case Expire => b
    case Tick => if b.tokens < b.capacity then b.(tokens := b.tokens + 1) else b
    case Close => b.(closed := true)
    case LoopEnd => b.(refilling := false)
  }

  class Limiter {
    var bucket: Bucket

    constructor (maxBurst: int)
      ensures bucket == Full(if maxBurst < 1 then 1 else maxBurst)
      ensures 1 <= bucket.tokens == bucket.capacity && maxBurst <= bucket.tokens && !bucket.closed && bucket.refilling
    {
      var burst := if maxBurst < 1 then 1 else maxBurst;
      var tokens := 0;
      while tokens < burst
        invariant tokens <= burst
      {
        tokens := tokens + 1;
      }
      bucket := Bucket(tokens, burst, false, true);
    }

    /** A select over the token channel and the context: when both are ready, either may be taken. */
    method SubmitOrder(done: bool, preferDone: bool) returns (admitted: bool)
      requires bucket.tokens > 0 || done
      modifies this
      ensures admitted <==> old(bucket).tokens > 0 && !(done && preferDone)
      ensures bucket == After(old(bucket), if admitted then Admit else Expire)
    {
      if bucket.tokens > 0 && !(done && preferDone) {
        bucket := bucket.(tokens := bucket.tokens - 1);
        return true;
      }
      return false;
    }

    /** One turn of the refill loop: a token is put in unless the bucket is full. */
    method RefillTurn(ticked: bool) returns (goesOn: bool)
      requires bucket.refilling && (ticked || bucket.closed)
      modifies this
      ensures goesOn == ticked
      ensures bucket == After(old(bucket), if ticked then Tick else LoopEnd)
    {
      if ticked {
        if bucket.tokens < bucket.capacity {
          bucket := bucket.(tokens := bucket.tokens + 1);
        }
        return true;
      }
      bucket := bucket.(refilling := false);
      return false;
    }

    method CloseLimiter()
      modifies this
      ensures bucket == After(old(bucket), Close)
    {
      bucket := bucket.(closed := true);
    }
  }

  function Full(capacity: nat): Bucket {
    Bucket(capacity, capacity, false, true)
  }

  // ---------------------------------------------------------------- runs

  predicate Run(b: Bucket, steps: seq<Step>)
    decreases |steps|
  {
    steps != [] ==> Enabled(b, steps[0]) && Run(After(b, steps[0]), steps[1..])
  }

  function End(b: Bucket, steps: seq<Step>): Bucket
    requires Run(b, steps)
    decreases |steps|
  {
    if steps == [] then b else End(After(b, steps[0]), steps[1..])
  }

  function Count(steps: seq<Step>, e: Step): nat {
    if steps == [] then 0 else (if steps[0] == e then 1 else 0) + Count(steps[1..], e)
  }

  /** The ticks that found room for a token. */
  function Refills(b: Bucket, steps: seq<Step>): nat
    requires Run(b, steps)
    decreases |steps|
  {
    if steps == [] then 0
    else
      (if steps[0].Tick? && b.tokens < b.capacity then 1 else 0) + Refills(After(b, steps[0]), steps[1..])
  }

  /** Tokens are conserved and never exceed the capacity. */
  lemma {:induction false} TokensConserved(b: Bucket, steps: seq<Step>)
    requires Run(b, steps) && b.tokens <= b.capacity
    ensures var end := End(b, steps);
            && end.tokens <= end.capacity == b.capacity
            && b.tokens + Refills(b, steps) == Count(steps, Admit) + end.tokens
            && Refills(b, steps) <= Count(steps, Tick)
    decreases |steps|
  {
    if steps != [] {
      TokensConserved(After(b, steps[0]), steps[1..]);
    }
  }

  lemma {:induction false} RunParts(b: Bucket, first: seq<Step>, second: seq<Step>)
    requires Run(b, first + second)
    ensures Run(b, first) && Run(End(b, first), second)
    decreases |first|
  {
    if first == [] {
      assert first + second == second;
    } else {
      assert (first + second)[1..] == first[1..] + second;
      RunParts(After(b, first[0]), first[1..], second);
    }
  }

  /**
   The rate limit: in every interleaving, any contiguous part of a run of a new limiter admits at
   most its capacity plus the number of ticks in that part.
   */
  lemma AdmissionsAreLimited(capacity: nat, before: seq<Step>, part: seq<Step>, rest: seq<Step>)
    requires Run(Full(capacity), before + part + rest)
    ensures Count(part, Admit) <= capacity + Count(part, Tick)
  {
    RunParts(Full(capacity), before + part, rest);
    RunParts(Full(capacity), before, part);
    TokensConserved(Full(capacity), before);
    TokensConserved(End(Full(capacity), before), part);
  }

  function Admits(n: nat): seq<Step> {
    seq(n, _ => Admit)
  }

  /** The limit is reached and not passed: without ticks a bucket admits exactly as many as it has tokens. */
  lemma {:induction false} BurstIsExact(b: Bucket, n: nat)
    ensures Run(b, Admits(n)) <==> n <= b.tokens
    decreases n
  {
    if n > 0 {
      assert Admits(n)[1..] == Admits(n - 1);
      if b.tokens > 0 {
        BurstIsExact(After(b, Admit), n - 1);
      }
    }
  }

  /** Closing is for good, and is what the refill loop needs to end. */
  lemma {:induction false} ClosedStaysClosed(b: Bucket, steps: seq<Step>)
    requires Run(b, steps)
    ensures Enabled(b, LoopEnd) ==> b.closed && b.refilling
    ensures End(b, steps).closed <==> b.closed || Count(steps, Close) > 0
    ensures b.refilling && !End(b, steps).refilling <==> Count(steps, LoopEnd) > 0
    decreases |steps|
  {
    if steps != [] {
      ClosedStaysClosed(After(b, steps[0]), steps[1..]);
      if !b.refilling {
        NoLoopEndTwice(b, steps);
      } else if steps[0].LoopEnd? {
        NoLoopEndTwice(After(b, LoopEnd), steps[1..]);
      }
    }
  }

  lemma {:induction false} NoLoopEndTwice(b: Bucket, steps: seq<Step>)
    requires Run(b, steps) && !b.refilling
    ensures Count(steps, LoopEnd) == 0 && !End(b, steps).refilling
    decreases |steps|
  {
    if steps != [] {
      NoLoopEndTwice(After(b, steps[0]), steps[1..]);
    }
  }

  /** Once the refill loop has ended, the tokens left are all that will ever be admitted. */
  lemma {:induction false} NoRefillAfterLoopEnd(b: Bucket, steps: seq<Step>)
    requires Run(b, steps) && !b.refilling
    ensures Count(steps, Tick) == 0 && !End(b, steps).refilling
    ensures Count(steps, Admit) + End(b, steps).tokens == b.tokens
    decreases |steps|
  {
    if steps != [] {
      NoRefillAfterLoopEnd(After(b, steps[0]), steps[1..]);
    }
  }
}
