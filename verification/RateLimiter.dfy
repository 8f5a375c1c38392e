/**
 The miner's token-bucket limiter. Time is whatever the caller read from the clock before taking the
 limiter's lock, so successive calls may carry times that go backwards.
 */
module RateLimiter {
  import opened Common

  datatype Bucket = Bucket(tokens: real, updatedAt: real)

  datatype Limits = Limits(burst: int, rate: real) {
    predicate Valid() {
      burst >= 1 && rate > 0.0
    }
  }

  type Buckets = map<string, Bucket>

  function Rise(before: real, now: real): real {
    if now > before then now - before else 0.0
  }

  function Scaled(rate: real, x: real): real {
    rate * x
  }

  lemma ScaledSum(rate: real, x: real, y: real)
    ensures Scaled(rate, x + y) == Scaled(rate, x) + Scaled(rate, y)
  {
  }

  lemma ScaledIsNonnegative(rate: real, x: real)
    requires rate > 0.0 && x >= 0.0
    ensures Scaled(rate, x) >= 0.0
  {
  }

  function Lookup(buckets: Buckets, key: string): Option<Bucket> {
    if key in buckets then Some(buckets[key]) else None
  }

  /** A key seen for the first time starts with a full bucket. */
  function Before(limits: Limits, bucket: Option<Bucket>, now: real): Bucket {
    if bucket.Some? then bucket.value else Bucket(limits.burst as real, now)
  }

  /** Tokens at hand once the bucket has been refilled for the time that passed. */
  function Refilled(limits: Limits, bucket: Option<Bucket>, now: real): real {
    var b := Before(limits, bucket, now);
    var tokens := b.tokens + Scaled(limits.rate, Rise(b.updatedAt, now));
    if tokens < limits.burst as real then tokens else limits.burst as real
  }

  predicate Admits(limits: Limits, bucket: Option<Bucket>, now: real) {
    Refilled(limits, bucket, now) >= 1.0
  }

  function Charged(limits: Limits, bucket: Option<Bucket>, now: real): Bucket {
    Bucket(Refilled(limits, bucket, now) - (if Admits(limits, bucket, now) then 1.0 else 0.0), now)
  }

  predicate BucketValid(limits: Limits, bucket: Bucket) {
    0.0 <= bucket.tokens <= limits.burst as real
  }

  lemma ChargedIsValid(limits: Limits, bucket: Option<Bucket>, now: real)
    requires limits.Valid() && (bucket.Some? ==> BucketValid(limits, bucket.value))
    ensures BucketValid(limits, Charged(limits, bucket, now))
  {
  }

  class TokenBucketLimiter {
    const limits: Limits
    var buckets: Buckets

    ghost predicate Valid()
      reads this
    {
      limits.Valid() && forall key :: key in buckets ==> BucketValid(limits, buckets[key])
    }

    constructor (limits: Limits)
      requires limits.Valid()
      ensures Valid() && this.limits == limits && buckets == map[]
    {
      this.limits := limits;
      buckets := map[];
    }

    method Allow(key: string, now: real) returns (allowed: bool)
      requires Valid()
      modifies this
      ensures Valid()
      ensures allowed == Admits(limits, Lookup(old(buckets), key), now)
      ensures buckets == old(buckets)[key := Charged(limits, Lookup(old(buckets), key), now)]
    {
      ChargedIsValid(limits, Lookup(buckets, key), now);
      var bucket := if key in buckets then buckets[key] else Bucket(limits.burst as real, now);
      var elapsed := if now - bucket.updatedAt > 0.0 then now - bucket.updatedAt else 0.0;
      var tokens := bucket.tokens + Scaled(limits.rate, elapsed);
      if tokens > limits.burst as real { tokens := limits.burst as real; }
      allowed := tokens >= 1.0;
      if allowed { tokens := tokens - 1.0; }
      buckets := buckets[key := Bucket(tokens, now)];
    }
  }

  /** The source's constructor: bounds that are not positive raise. */
  method NewLimiter(burst: int, rate: real) returns (limiter: Option<TokenBucketLimiter>)
    ensures limiter.Some? <==> burst >= 1 && rate > 0.0
    ensures limiter.Some? ==>
      fresh(limiter.value) && limiter.value.Valid() && limiter.value.limits == Limits(burst, rate)
  {
    if burst < 1 || rate <= 0.0 { return None; }
    var created := new TokenBucketLimiter(Limits(burst, rate));
    limiter := Some(created);
  }

  /******* Runs of calls *******/

  datatype Call = Call(key: string, now: real)

  function Run(limits: Limits, buckets: Buckets, calls: seq<Call>): (results: seq<bool>)
    ensures |results| == |calls|
    decreases |calls|
  {
    if calls == [] then []
    else
      var bucket := Lookup(buckets, calls[0].key);
      var next := buckets[calls[0].key := Charged(limits, bucket, calls[0].now)];
      [Admits(limits, bucket, calls[0].now)] + Run(limits, next, calls[1..])
  }

  /** One key's calls alone. */
  function RunKey(limits: Limits, bucket: Option<Bucket>, times: seq<real>): (results: seq<bool>)
    ensures |results| == |times|
    decreases |times|
  {
    if times == [] then []
    else [Admits(limits, bucket, times[0])] + RunKey(limits, Some(Charged(limits, bucket, times[0])), times[1..])
  }

  /** One key's bucket after its calls. */
  function AfterCalls(limits: Limits, bucket: Option<Bucket>, times: seq<real>): Option<Bucket> {
    if times == [] then bucket
    else Some(Charged(limits, AfterCalls(limits, bucket, times[..|times| - 1]), times[|times| - 1]))
  }

  function TimesOf(key: string, calls: seq<Call>): seq<real> {
    if calls == [] then []
    else (if calls[0].key == key then [calls[0].now] else []) + TimesOf(key, calls[1..])
  }

  function ResultsOf(key: string, calls: seq<Call>, results: seq<bool>): (own: seq<bool>)
    requires |results| == |calls|
    ensures |own| == |TimesOf(key, calls)|
  {
    if calls == [] then []
    else (if calls[0].key == key then [results[0]] else []) + ResultsOf(key, calls[1..], results[1..])
  }

  /** However calls interleave, a key is answered as if it were alone. */
  lemma {:induction false} OtherKeysHaveNoEffect(limits: Limits, buckets: Buckets, calls: seq<Call>, key: string)
    ensures ResultsOf(key, calls, Run(limits, buckets, calls))
         == RunKey(limits, Lookup(buckets, key), TimesOf(key, calls))
    decreases |calls|
  {
    if calls != [] {
      var bucket := Lookup(buckets, calls[0].key);
      var next := buckets[calls[0].key := Charged(limits, bucket, calls[0].now)];
      assert Run(limits, buckets, calls)[1..] == Run(limits, next, calls[1..]);
      OtherKeysHaveNoEffect(limits, next, calls[1..], key);
      if calls[0].key == key {
        assert TimesOf(key, calls)[1..] == TimesOf(key, calls[1..]);
      } else {
        assert Lookup(next, key) == Lookup(buckets, key);
        assert TimesOf(key, calls) == TimesOf(key, calls[1..]);
      }
    }
  }

  function Admissions(results: seq<bool>): nat {
    if results == [] then 0 else (if results[0] then 1 else 0) + Admissions(results[1..])
  }

  /** The sum of the clock's forward movements from one call to the next. */
  function Rises(from: real, times: seq<real>): (r: real)
    ensures r >= 0.0
    decreases |times|
  {
    if times == [] then 0.0 else Rise(from, times[0]) + Rises(times[0], times[1..])
  }

  lemma {:induction false} AdmissionsAreFunded(limits: Limits, bucket: Bucket, times: seq<real>)
    requires limits.Valid() && BucketValid(limits, bucket)
    ensures Admissions(RunKey(limits, Some(bucket), times)) as real
         <= bucket.tokens + Scaled(limits.rate, Rises(bucket.updatedAt, times))
    decreases |times|
  {
    if times != [] {
      var next := Charged(limits, Some(bucket), times[0]);
      ChargedIsValid(limits, Some(bucket), times[0]);
      AdmissionsAreFunded(limits, next, times[1..]);
      ScaledSum(limits.rate, Rise(bucket.updatedAt, times[0]), Rises(times[0], times[1..]));
      assert RunKey(limits, Some(bucket), times)[1..] == RunKey(limits, Some(next), times[1..]);
    }
  }

  lemma {:induction false} AfterFirstCall(limits: Limits, bucket: Option<Bucket>, times: seq<real>)
    requires times != []
    ensures AfterCalls(limits, bucket, times) == AfterCalls(limits, Some(Charged(limits, bucket, times[0])), times[1..])
  {
    if |times| == 1 {
      assert times[..0] == [] && times[1..] == [];
    } else {
      var n := |times| - 1;
      AfterFirstCall(limits, bucket, times[..n]);
      assert times[..n][1..] == times[1..][..n - 1];
    }
  }

  /** No call finds more tokens than the bucket holds. */
  ghost predicate NeverFull(limits: Limits, bucket: Bucket, times: seq<real>)
    decreases |times|
  {
    times == [] ||
    (bucket.tokens + Scaled(limits.rate, Rise(bucket.updatedAt, times[0])) <= limits.burst as real
     && NeverFull(limits, Charged(limits, Some(bucket), times[0]), times[1..]))
  }

  /** While the bucket does not overflow, tokens are neither made nor lost: earned equals spent plus left. */
  lemma {:induction false} TokensAreConserved(limits: Limits, bucket: Bucket, times: seq<real>)
    requires NeverFull(limits, bucket, times)
    ensures AfterCalls(limits, Some(bucket), times).Some?
    ensures AfterCalls(limits, Some(bucket), times).value.tokens
            + Admissions(RunKey(limits, Some(bucket), times)) as real
         == bucket.tokens + Scaled(limits.rate, Rises(bucket.updatedAt, times))
    decreases |times|
  {
    if times == [] {
      assert Scaled(limits.rate, 0.0) == 0.0;
    } else {
      var next := Charged(limits, Some(bucket), times[0]);
      TokensAreConserved(limits, next, times[1..]);
      AfterFirstCall(limits, Some(bucket), times);
      ScaledSum(limits.rate, Rise(bucket.updatedAt, times[0]), Rises(times[0], times[1..]));
      assert RunKey(limits, Some(bucket), times)[1..] == RunKey(limits, Some(next), times[1..]);
    }
  }

  /**
   Over any window of calls one key is admitted at most `burst` times plus the rate times the forward
   movement of the clock inside the window, whatever happened before it and to other keys.
   */
  lemma AdmissionsAreBounded(limits: Limits, buckets: Buckets, calls: seq<Call>, key: string)
    requires limits.Valid() && forall k :: k in buckets ==> BucketValid(limits, buckets[k])
    requires TimesOf(key, calls) != []
    ensures Admissions(ResultsOf(key, calls, Run(limits, buckets, calls))) as real
         <= limits.burst as real + Scaled(limits.rate, Rises(TimesOf(key, calls)[0], TimesOf(key, calls)[1..]))
  {
    OtherKeysHaveNoEffect(limits, buckets, calls, key);
    var bucket, times := Lookup(buckets, key), TimesOf(key, calls);
    var next := Charged(limits, bucket, times[0]);
    ChargedIsValid(limits, bucket, times[0]);
    AdmissionsAreFunded(limits, next, times[1..]);
    assert RunKey(limits, bucket, times)[1..] == RunKey(limits, Some(next), times[1..]);
  }

  ghost predicate Nondecreasing(times: seq<real>) {
    forall i, j :: 0 <= i < j < |times| ==> times[i] <= times[j]
  }

  /** With a clock that never goes back the forward movement is the length of the window. */
  lemma {:induction false} RisesOfSteadyClock(times: seq<real>)
    requires times != [] && Nondecreasing(times)
    ensures Rises(times[0], times[1..]) == times[|times| - 1] - times[0]
  {
    if |times| > 1 {
      RisesOfSteadyClock(times[1..]);
    }
  }

  /** Each call comes long enough after the one before to have earned a token. */
  ghost predicate Patient(limits: Limits, times: seq<real>) {
    forall i :: 1 <= i < |times| ==> Scaled(limits.rate, times[i] - times[i - 1]) >= 1.0
  }

  lemma ScaledSign(rate: real, x: real)
    requires rate > 0.0 && Scaled(rate, x) >= 1.0
    ensures x > 0.0
  {
  }

  lemma {:induction false} PatientRun(limits: Limits, bucket: Option<Bucket>, times: seq<real>)
    requires limits.Valid() && Patient(limits, times)
    requires bucket.Some? ==> BucketValid(limits, bucket.value)
    requires bucket.Some? && times != [] ==> Scaled(limits.rate, times[0] - bucket.value.updatedAt) >= 1.0
    ensures forall i :: 0 <= i < |times| ==> RunKey(limits, bucket, times)[i]
    decreases |times|
  {
    if times != [] {
      if bucket.Some? {
        ScaledSign(limits.rate, times[0] - bucket.value.updatedAt);
      }
      ScaledIsNonnegative(limits.rate, Rise(times[0], times[0]));
      assert Admits(limits, bucket, times[0]);
      var next := Charged(limits, bucket, times[0]);
      ChargedIsValid(limits, bucket, times[0]);
      assert forall i :: 1 <= i < |times[1..]| ==> times[1..][i] == times[i + 1] && times[1..][i - 1] == times[i];
      PatientRun(limits, Some(next), times[1..]);
    }
  }

  /** A key that always waits for one token's worth of time is never refused, whatever other keys do. */
  lemma PatientKeyIsAlwaysAdmitted(limits: Limits, buckets: Buckets, calls: seq<Call>, key: string)
    requires limits.Valid() && (key in buckets ==> BucketValid(limits, buckets[key]))
    requires Patient(limits, TimesOf(key, calls))
    requires key in buckets && TimesOf(key, calls) != [] ==>
               Scaled(limits.rate, TimesOf(key, calls)[0] - buckets[key].updatedAt) >= 1.0
    ensures forall i :: 0 <= i < |TimesOf(key, calls)| ==> ResultsOf(key, calls, Run(limits, buckets, calls))[i]
  {
    OtherKeysHaveNoEffect(limits, buckets, calls, key);
    PatientRun(limits, Lookup(buckets, key), TimesOf(key, calls));
  }

  /** Calls at one instant are paid from the tokens at hand, one each. */
  lemma {:induction false} InstantRun(limits: Limits, bucket: Bucket, times: seq<real>)
    requires limits.Valid() && BucketValid(limits, bucket)
    requires forall i :: 0 <= i < |times| ==> times[i] == bucket.updatedAt
    ensures forall i :: 0 <= i < |times| ==>
      (RunKey(limits, Some(bucket), times)[i] <==> (i + 1) as real <= bucket.tokens)
    decreases |times|
  {
    if times != [] {
      var next := Charged(limits, Some(bucket), times[0]);
      assert Scaled(limits.rate, 0.0) == 0.0;
      assert Refilled(limits, Some(bucket), times[0]) == bucket.tokens;
      InstantRun(limits, next, times[1..]);
      forall i | 1 <= i < |times| ensures RunKey(limits, Some(bucket), times)[i] <==> (i + 1) as real <= bucket.tokens {
        assert RunKey(limits, Some(bucket), times)[i] == RunKey(limits, Some(next), times[1..])[i - 1];
      }
    }
  }

  /** A new key's burst at one instant: the first `burst` calls are admitted and no later one. */
  lemma BurstIsExact(limits: Limits, times: seq<real>)
    requires limits.Valid() && forall i :: 0 <= i < |times| ==> times[i] == times[0]
    ensures forall i :: 0 <= i < |times| ==> (RunKey(limits, None, times)[i] <==> i < limits.burst)
  {
    if times != [] {
      var full := Bucket(limits.burst as real, times[0]);
      assert RunKey(limits, None, times) == RunKey(limits, Some(full), times);
      InstantRun(limits, full, times);
    }
  }
}
