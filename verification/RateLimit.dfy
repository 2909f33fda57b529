/**
 * The per-host token bucket: the in-process bucket, the Redis script that should be the same
 * machine, and the waiting loop around them. Arithmetic is exact.
 */
module RateLimit {
  import opened Sequences

  function MinR(a: real, b: real): real { if b < a then b else a }

  function MaxR(a: real, b: real): real { if a < b then b else a }

  datatype Bucket = Bucket(tokens: real, updatedAt: real)

  datatype Limits = Limits(rate: real, burst: real)

  function DefaultBurst(rate: real): real { MaxR(1.0, rate) }

  /** The limits of a bucket that is given a rate only: room for one request at least. */
  function DefaultLimits(rate: real): (lim: Limits)
    ensures lim.rate == rate && lim.burst == if rate < 1.0 then 1.0 else rate
  {
    Limits(rate, DefaultBurst(rate))
  }

  /** A key seen for the first time starts with a full bucket. */
  function Opened(b: Option<Bucket>, lim: Limits, now: real): Bucket {
    match b
    case Some(found) => found
    case None => Bucket(lim.burst, now)
  }

  /** Tokens that drip in between two clock readings. */
  function Gain(since: real, now: real, rate: real): real {
    MaxR(0.0, now - since) * rate
  }

  /** Time that runs backwards refills nothing, but it does move the timestamp. */
  function Refilled(b: Option<Bucket>, lim: Limits, now: real): Bucket {
    var was := Opened(b, lim, now);
    Bucket(MinR(lim.burst, was.tokens + Gain(was.updatedAt, now, lim.rate)), now)
  }

  /** The bucket covers the cost, so the try is granted. */
  predicate Affordable(b: Option<Bucket>, lim: Limits, cost: real, now: real) {
    Refilled(b, lim, now).tokens >= cost
  }

  /** The bucket after a try: refilled, and charged if the try was granted. */
  function Spent(b: Option<Bucket>, lim: Limits, cost: real, now: real): Bucket {
    var full := Refilled(b, lim, now);
    if full.tokens >= cost then full.(tokens := full.tokens - cost) else full
  }

  /** What the try returns: zero, or the time until the missing tokens have dripped in. */
  function WaitFor(b: Option<Bucket>, lim: Limits, cost: real, now: real): real
    requires lim.rate > 0.0
  {
    if Affordable(b, lim, cost, now) then 0.0 else (cost - Refilled(b, lim, now).tokens) / lim.rate
  }

  lemma MulDistributes(a: real, b: real, c: real)
    ensures (a + b) * c == a * c + b * c
  {
  }

  lemma MulNonNegative(a: real, b: real)
    requires a >= 0.0 && b >= 0.0
    ensures a * b >= 0.0
  {
  }

  lemma DivPositive(a: real, b: real)
    requires a > 0.0 && b > 0.0
    ensures a / b > 0.0 && (a / b) * b == a
  {
  }

  lemma GainNonNegative(since: real, now: real, rate: real)
    requires rate > 0.0
    ensures Gain(since, now, rate) >= 0.0 && (now <= since ==> Gain(since, now, rate) == 0.0)
  {
    MulNonNegative(MaxR(0.0, now - since), rate);
  }

  lemma GainAdds(since: real, mid: real, now: real, rate: real)
    requires since <= mid <= now
    ensures Gain(since, now, rate) == Gain(since, mid, rate) + Gain(mid, now, rate)
  {
    MulDistributes(mid - since, now - mid, rate);
    assert (mid - since) + (now - mid) == now - since;
  }

  /** A caller that sees no wait has been granted its cost, and the other way round. */
  lemma NoWaitMeansGranted(b: Option<Bucket>, lim: Limits, cost: real, now: real)
    requires lim.rate > 0.0
    ensures WaitFor(b, lim, cost, now) <= 0.0 <==> Affordable(b, lim, cost, now)
    ensures WaitFor(b, lim, cost, now) >= 0.0
  {
    if !Affordable(b, lim, cost, now) {
      DivPositive(cost - Refilled(b, lim, now).tokens, lim.rate);
    }
  }

  // ---- The objects ----

  class TokenBucket {
    const lim: Limits
    var local: map<string, Bucket>

    constructor (lim: Limits)
      ensures this.lim == lim && local == map[]
    {
      this.lim := lim;
      local := map[];
    }

    /** A non-positive rate is refused; the burst defaults to at least one token. */
    static method Create(rate: real, burst: Option<real>) returns (r: TokenBucket?)
      ensures r == null <==> rate <= 0.0
      ensures r != null ==> fresh(r) && r.local == map[]
      ensures r != null ==> r.lim.rate == rate
      ensures r != null ==> r.lim.burst == match burst
        case Some(b) => b
        case None => if rate < 1.0 then 1.0 else rate
    {
      if rate <= 0.0 {
        return null;
      }
      r := new TokenBucket(Limits(rate, match burst { case Some(b) => b case None => DefaultBurst(rate) }));
    }

    function Lookup(key: string): Option<Bucket>
      reads this
    {
      if key in local then Some(local[key]) else None
    }

    method TryLocal(key: string, cost: real, now: real) returns (wait: real)
      requires lim.rate > 0.0
      modifies this
      ensures wait == WaitFor(old(Lookup(key)), lim, cost, now)
      ensures local == old(local)[key := Spent(old(Lookup(key)), lim, cost, now)]
    {
      ghost var start := Lookup(key);
      var b := if key in local then local[key] else Bucket(lim.burst, now);
      var elapsed := MaxR(0.0, now - b.updatedAt);
      b := b.(tokens := MinR(lim.burst, b.tokens + elapsed * lim.rate));
      b := b.(updatedAt := now);
      assert b == Refilled(start, lim, now);
      wait := 0.0;
      if b.tokens >= cost {
        b := b.(tokens := b.tokens - cost);
      } else {
        wait := (cost - b.tokens) / lim.rate;
      }
      local := local[key := b];
    }

    /**
     * The waiting loop with nobody else on the key. `clock[i]` is the time of the i-th try; the
     * first sleep lasts at least as long as it was asked to.
     */
    method Acquire(key: string, cost: real, clock: seq<real>) returns (tries: nat, granted: bool)
      requires lim.rate > 0.0 && clock != []
      requires |clock| > 1 ==> clock[1] >= clock[0] + WaitFor(Lookup(key), lim, cost, clock[0])
      modifies this
      ensures Waits(old(Lookup(key)), lim, cost, clock, tries, granted, Lookup(key))
      ensures forall other :: other in old(local) && other != key ==>
        other in local && local[other] == old(local)[other]
    {
      tries, granted := 0, false;
      ghost var start := Lookup(key);
      while tries < |clock|
        invariant 0 <= tries <= |clock| && !granted
        invariant Denied(start, lim, cost, clock, tries, Lookup(key))
        invariant local == if tries == 0 then old(local) else old(local)[key := Lookup(key).value]
      {
        AnotherTry(start, lim, cost, clock, tries, Lookup(key));
        var wait := TryLocal(key, cost, clock[tries]);
        tries := tries + 1;
        if wait <= 0.0 {
          return tries, true;
        }
      }
      AllTriesDenied(start, lim, cost, clock, Lookup(key));
    }
  }

  /** One bucket group per overridden host and one for all others. */
  class HostRateLimiter {
    const default: TokenBucket
    const buckets: map<string, TokenBucket>

    ghost predicate Valid() {
      && default.lim.rate > 0.0
      && (forall h :: h in buckets ==> buckets[h] != default && buckets[h].lim.rate > 0.0)
      && (forall h, g :: h in buckets && g in buckets && h != g ==> buckets[h] != buckets[g])
    }

    constructor (default: TokenBucket, buckets: map<string, TokenBucket>)
      requires default.lim.rate > 0.0
      requires forall h :: h in buckets ==> buckets[h] != default && buckets[h].lim.rate > 0.0
      requires forall h, g :: h in buckets && g in buckets && h != g ==> buckets[h] != buckets[g]
      ensures Valid() && this.default == default && this.buckets == buckets
    {
      this.default := default;
      this.buckets := buckets;
    }

    function GroupOf(host: string): TokenBucket {
      if host in buckets then buckets[host] else default
    }

    ghost function BucketOf(host: string): Option<Bucket>
      reads GroupOf(host)
    {
      GroupOf(host).Lookup(host)
    }

    /**
     * A try for one host decides on that host's bucket and touches no other host's. An overridden host
     * is judged by its own limits; all others share the default group.
     */
    method Try(host: string, cost: real, now: real) returns (wait: real)
      requires Valid()
      modifies GroupOf(host)
      ensures host in buckets ==>
        && wait == WaitFor(old(buckets[host].Lookup(host)), buckets[host].lim, cost, now)
        && buckets[host].Lookup(host) == Some(Spent(old(buckets[host].Lookup(host)), buckets[host].lim, cost, now))
        && default.local == old(default.local)
      ensures host !in buckets ==>
        && wait == WaitFor(old(default.Lookup(host)), default.lim, cost, now)
        && default.Lookup(host) == Some(Spent(old(default.Lookup(host)), default.lim, cost, now))
      ensures forall other :: other in buckets && other != host ==>
        buckets[other].local == old(buckets[other].local)
      ensures forall other :: other != host ==> BucketOf(other) == old(BucketOf(other))
    {
      wait := GroupOf(host).TryLocal(host, cost, now);
    }

    /** One group for everybody, and one for each overridden host with that host's rate; a bad rate is refused. */
    static method Create(defaultRate: real, overrides: map<string, real>) returns (r: HostRateLimiter?)
      ensures r == null <==> defaultRate <= 0.0 || exists h :: h in overrides && overrides[h] <= 0.0
      ensures r != null ==> fresh(r) && r.Valid() && r.buckets.Keys == overrides.Keys
      ensures r != null ==> r.default.lim == DefaultLimits(defaultRate) && r.default.local == map[]
      ensures r != null ==> forall h :: h in overrides ==>
        r.buckets[h].lim == DefaultLimits(overrides[h]) && r.buckets[h].local == map[]
    {
      r := null;
      var shared := TokenBucket.Create(defaultRate, None);
      if shared == null {
        return;
      }
      var made: map<string, TokenBucket> := map[];
      var left := overrides.Keys;
      while left != {}
        invariant left <= overrides.Keys && made.Keys == overrides.Keys - left
        invariant forall h :: h in made ==>
          fresh(made[h]) && made[h] != shared && overrides[h] > 0.0
          && made[h].lim == DefaultLimits(overrides[h]) && made[h].local == map[]
        invariant forall h, g :: h in made && g in made && h != g ==> made[h] != made[g]
        invariant shared.local == map[] && shared.lim == DefaultLimits(defaultRate)
        decreases left
      {
        var host :| host in left;
        var bucket := TokenBucket.Create(overrides[host], None);
        if bucket == null {
          return;
        }
        made := made[host := bucket];
        left := left - {host};
      }
      r := new HostRateLimiter(shared, made);
    }
  }

  // ---- Histories of one key ----

  datatype Call = Call(cost: real, now: real)

  function After(b: Option<Bucket>, lim: Limits, calls: seq<Call>): Option<Bucket> {
    if calls == [] then b
    else var c := calls[|calls| - 1];
      Some(Spent(After(b, lim, calls[..|calls| - 1]), lim, c.cost, c.now))
  }

  /** Tries of one cost at these times. */
  function TriesAt(cost: real, times: seq<real>): seq<Call> {
    seq(|times|, i requires 0 <= i < |times| => Call(cost, times[i]))
  }

  lemma AllDeniedSnoc(b: Option<Bucket>, lim: Limits, calls: seq<Call>, c: Call)
    requires AllDenied(b, lim, calls) && !Affordable(After(b, lim, calls), lim, c.cost, c.now)
    ensures AllDenied(b, lim, calls + [c])
  {
    var next := calls + [c];
    forall i | 0 <= i < |next| ensures !Affordable(After(b, lim, next[..i]), lim, next[i].cost, next[i].now) {
      if i < |calls| {
        assert next[..i] == calls[..i] && next[i] == calls[i];
      } else {
        assert next[..i] == calls;
      }
    }
  }

  lemma TriesSnoc(cost: real, clock: seq<real>, n: nat)
    requires n < |clock|
    ensures TriesAt(cost, clock[..n + 1]) == TriesAt(cost, clock[..n]) + [Call(cost, clock[n])]
  {
  }

  lemma AfterSnoc(b: Option<Bucket>, lim: Limits, calls: seq<Call>, c: Call)
    ensures After(b, lim, calls + [c]) == Some(Spent(After(b, lim, calls), lim, c.cost, c.now))
  {
    assert (calls + [c])[..|calls|] == calls;
  }

  lemma OneMoreTry(b: Option<Bucket>, lim: Limits, cost: real, clock: seq<real>, n: nat)
    requires n < |clock| && AllDenied(b, lim, TriesAt(cost, clock[..n]))
    ensures After(b, lim, TriesAt(cost, clock[..n + 1]))
      == Some(Spent(After(b, lim, TriesAt(cost, clock[..n])), lim, cost, clock[n]))
    ensures n == 0 ==> After(b, lim, TriesAt(cost, clock[..n])) == b
    ensures !Affordable(After(b, lim, TriesAt(cost, clock[..n])), lim, cost, clock[n]) ==>
      AllDenied(b, lim, TriesAt(cost, clock[..n + 1]))
  {
    var now, c := TriesAt(cost, clock[..n]), Call(cost, clock[n]);
    TriesSnoc(cost, clock, n);
    AfterSnoc(b, lim, now, c);
    if !Affordable(After(b, lim, now), lim, cost, clock[n]) {
      AllDeniedSnoc(b, lim, now, c);
    }
  }

  /** Total cost of the calls that were granted. */
  function Admitted(b: Option<Bucket>, lim: Limits, calls: seq<Call>): real {
    if calls == [] then 0.0
    else
      var init, c := calls[..|calls| - 1], calls[|calls| - 1];
      Admitted(b, lim, init) + if Affordable(After(b, lim, init), lim, c.cost, c.now) then c.cost else 0.0
  }

  /** The sum of the forward movements of the clock between the calls. */
  function Forward(calls: seq<Call>): real {
    if |calls| <= 1 then 0.0
    else Forward(calls[..|calls| - 1]) + MaxR(0.0, calls[|calls| - 1].now - calls[|calls| - 2].now)
  }

  lemma AfterTime(b: Option<Bucket>, lim: Limits, calls: seq<Call>)
    requires calls != []
    ensures After(b, lim, calls).Some? && After(b, lim, calls).value.updatedAt == calls[|calls| - 1].now
  {
  }

  /** A try moves cost from the bucket to what was admitted. */
  lemma TryConserves(b: Option<Bucket>, lim: Limits, calls: seq<Call>, c: Call)
    ensures Admitted(b, lim, calls + [c]) + Spent(After(b, lim, calls), lim, c.cost, c.now).tokens
      == Admitted(b, lim, calls) + Refilled(After(b, lim, calls), lim, c.now).tokens
    ensures After(b, lim, calls + [c]) == Some(Spent(After(b, lim, calls), lim, c.cost, c.now))
  {
    assert (calls + [c])[..|calls|] == calls;
  }

  /** The tokens that the forward movements of the clock bring. */
  function Dripped(lim: Limits, calls: seq<Call>): real {
    if |calls| <= 1 then 0.0
    else Dripped(lim, calls[..|calls| - 1]) + Gain(calls[|calls| - 2].now, calls[|calls| - 1].now, lim.rate)
  }

  lemma {:induction false} DrippedIsForward(lim: Limits, calls: seq<Call>)
    ensures Dripped(lim, calls) == Forward(calls) * lim.rate
  {
    if |calls| > 1 {
      var init := calls[..|calls| - 1];
      DrippedIsForward(lim, init);
      MulDistributes(Forward(init), MaxR(0.0, calls[|calls| - 1].now - calls[|calls| - 2].now), lim.rate);
    }
  }

  lemma RefilledAtMost(b: Bucket, lim: Limits, now: real)
    ensures Refilled(Some(b), lim, now).tokens <= lim.burst
    ensures Refilled(Some(b), lim, now).tokens <= b.tokens + Gain(b.updatedAt, now, lim.rate)
  {
  }

  lemma DrippedSnoc(lim: Limits, init: seq<Call>, c: Call)
    requires init != []
    ensures Dripped(lim, init + [c]) == Dripped(lim, init) + Gain(init[|init| - 1].now, c.now, lim.rate)
  {
    assert (init + [c])[..|init|] == init;
  }

  lemma GainPays(admitted: real, left: real, full: real, gain: real, bound: real)
    requires admitted + left <= bound && full <= left + gain
    ensures admitted + full <= bound + gain
  {
  }

  /** Another call adds to the sum at most what has dripped in since the call before. */
  lemma GainOfCall(b: Option<Bucket>, lim: Limits, init: seq<Call>, c: Call, bound: real)
    requires init != [] && After(b, lim, init).Some?
    requires Admitted(b, lim, init) + After(b, lim, init).value.tokens <= bound
    ensures After(b, lim, init + [c]).Some?
    ensures Admitted(b, lim, init + [c]) + After(b, lim, init + [c]).value.tokens
      <= bound + Gain(init[|init| - 1].now, c.now, lim.rate)
  {
    var before := After(b, lim, init).value;
    TryConserves(b, lim, init, c);
    AfterTime(b, lim, init);
    RefilledAtMost(before, lim, c.now);
    GainPays(Admitted(b, lim, init), before.tokens, Refilled(Some(before), lim, c.now).tokens,
             Gain(before.updatedAt, c.now, lim.rate), bound);
  }

  lemma FirstCall(b: Option<Bucket>, lim: Limits, c: Call)
    ensures After(b, lim, [c]).Some? && Admitted(b, lim, [c]) + After(b, lim, [c]).value.tokens <= lim.burst
  {
    TryConserves(b, lim, [], c);
    assert [] + [c] == [c];
  }

  /** What was admitted and what is left never exceed the burst plus what the clock has brought. */
  lemma {:induction false} AdmittedPlusLeft(b: Option<Bucket>, lim: Limits, calls: seq<Call>)
    requires calls != []
    ensures After(b, lim, calls).Some?
    ensures Admitted(b, lim, calls) + After(b, lim, calls).value.tokens <= lim.burst + Dripped(lim, calls)
    decreases |calls|
  {
    var init, c := calls[..|calls| - 1], calls[|calls| - 1];
    if init == [] {
      FirstCall(b, lim, c);
      assert calls == [c];
    } else {
      AdmittedPlusLeft(b, lim, init);
      GainOfCall(b, lim, init, c, lim.burst + Dripped(lim, init));
      DrippedSnoc(lim, init, c);
      assert calls == init + [c];
    }
  }

  /** The bucket never goes below zero, nor, without refunds, above the burst. */
  lemma {:induction false} TokensInRange(lim: Limits, calls: seq<Call>)
    requires lim.rate > 0.0 && calls != []
    ensures After(None, lim, calls).value.tokens >= MinR(0.0, lim.burst)
    ensures (forall i :: 0 <= i < |calls| ==> calls[i].cost >= 0.0) ==>
      After(None, lim, calls).value.tokens <= lim.burst
    decreases |calls|
  {
    var init, c := calls[..|calls| - 1], calls[|calls| - 1];
    if init != [] {
      TokensInRange(lim, init);
      AfterTime(None, lim, init);
      GainNonNegative(After(None, lim, init).value.updatedAt, c.now, lim.rate);
    } else {
      GainNonNegative(c.now, c.now, lim.rate);
    }
  }

  lemma {:induction false} AfterAppend(b: Option<Bucket>, lim: Limits, a: seq<Call>, w: seq<Call>)
    ensures After(b, lim, a + w) == After(After(b, lim, a), lim, w)
    ensures Admitted(b, lim, a + w) == Admitted(b, lim, a) + Admitted(After(b, lim, a), lim, w)
    decreases |w|
  {
    if w == [] {
      assert a + w == a;
    } else {
      assert (a + w)[..|a + w| - 1] == a + w[..|w| - 1];
      AfterAppend(b, lim, a, w[..|w| - 1]);
    }
  }

  lemma {:induction false} ForwardMonotone(calls: seq<Call>)
    requires calls != [] && forall i :: 0 < i < |calls| ==> calls[i - 1].now <= calls[i].now
    ensures Forward(calls) == calls[|calls| - 1].now - calls[0].now
  {
    if |calls| > 1 {
      var init := calls[..|calls| - 1];
      forall i | 0 < i < |init| ensures init[i - 1].now <= init[i].now {
        assert calls[i - 1].now <= calls[i].now;
      }
      ForwardMonotone(init);
    }
  }

  /**
   * The rate bound, over any window of any history of a key: the cost admitted in the window is at
   * most the burst plus the rate times the forward clock movement inside it, which for a clock that
   * never runs backwards is the length of the window.
   */
  lemma WindowBound(lim: Limits, before: seq<Call>, window: seq<Call>)
    requires lim.rate > 0.0 && window != []
    ensures Admitted(None, lim, before + window) - Admitted(None, lim, before)
      <= MaxR(0.0, lim.burst) + Forward(window) * lim.rate
    ensures (forall i :: 0 < i < |window| ==> window[i - 1].now <= window[i].now) ==>
      Forward(window) == window[|window| - 1].now - window[0].now
  {
    AfterAppend(None, lim, before, window);
    AdmittedPlusLeft(After(None, lim, before), lim, window);
    DrippedIsForward(lim, window);
    TokensInRange(lim, before + window);
    if forall i :: 0 < i < |window| ==> window[i - 1].now <= window[i].now {
      ForwardMonotone(window);
    }
  }

  // ---- Waiting ----

  /** A cost above the burst is never granted, whatever the bucket and the time. */
  lemma TooDearNeverGranted(b: Option<Bucket>, lim: Limits, cost: real, now: real)
    requires cost > lim.burst
    ensures !Affordable(b, lim, cost, now)
  {
  }

  predicate AllDenied(b: Option<Bucket>, lim: Limits, calls: seq<Call>) {
    forall i :: 0 <= i < |calls| ==> !Affordable(After(b, lim, calls[..i]), lim, calls[i].cost, calls[i].now)
  }

  predicate Times(from: real, calls: seq<Call>, to: real) {
    && (calls == [] ==> from <= to)
    && (calls != [] ==> from <= calls[0].now && calls[|calls| - 1].now <= to)
    && (forall i :: 0 < i < |calls| ==> calls[i - 1].now <= calls[i].now)
  }

  lemma InitTimes(from: real, calls: seq<Call>, to: real)
    requires calls != [] && Times(from, calls, to)
    ensures Times(from, calls[..|calls| - 1], calls[|calls| - 1].now) && from <= calls[|calls| - 1].now
  {
    var n := |calls| - 1;
    var init := calls[..n];
    forall i | 0 < i < |init| ensures init[i - 1].now <= init[i].now { assert calls[i - 1].now <= calls[i].now; }
    if init != [] {
      assert init[|init| - 1] == calls[n - 1];
      OrderedTimes(calls, n);
    }
  }

  lemma InitFacts(b: Option<Bucket>, lim: Limits, from: real, calls: seq<Call>, to: real)
    requires calls != [] && AllDenied(b, lim, calls) && Times(from, calls, to)
    ensures var init := calls[..|calls| - 1]; AllDenied(b, lim, init) && Times(from, init, calls[|calls| - 1].now)
    ensures from <= calls[|calls| - 1].now
  {
    InitTimes(from, calls, to);
    var init := calls[..|calls| - 1];
    forall i | 0 <= i < |init| ensures init[..i] == calls[..i] && init[i] == calls[i] {}
  }

  lemma {:induction false} OrderedTimes(calls: seq<Call>, i: nat)
    requires i < |calls| && forall j :: 0 < j < |calls| ==> calls[j - 1].now <= calls[j].now
    ensures calls[0].now <= calls[i].now
  {
    if i > 0 {
      OrderedTimes(calls, i - 1);
    }
  }

  lemma LastDenied(b: Option<Bucket>, lim: Limits, calls: seq<Call>)
    requires calls != [] && AllDenied(b, lim, calls)
    ensures After(b, lim, calls) == Some(Refilled(After(b, lim, calls[..|calls| - 1]), lim, calls[|calls| - 1].now))
  {
    assert !Affordable(After(b, lim, calls[..|calls| - 1]), lim, calls[|calls| - 1].cost, calls[|calls| - 1].now);
  }

  /** Denied calls only let the bucket fill up. */
  lemma {:induction false} DeniedCallsOnlyRefill(b: Bucket, lim: Limits, calls: seq<Call>, to: real)
    requires lim.rate > 0.0 && b.tokens <= lim.burst
    requires AllDenied(Some(b), lim, calls) && Times(b.updatedAt, calls, to)
    ensures Refilled(After(Some(b), lim, calls), lim, to).tokens
      == MinR(lim.burst, b.tokens + Gain(b.updatedAt, to, lim.rate))
    decreases |calls|
  {
    if calls != [] {
      var init, c := calls[..|calls| - 1], calls[|calls| - 1];
      InitFacts(Some(b), lim, b.updatedAt, calls, to);
      DeniedCallsOnlyRefill(b, lim, init, c.now);
      LastDenied(Some(b), lim, calls);
      GainAdds(b.updatedAt, c.now, to, lim.rate);
      GainNonNegative(c.now, to, lim.rate);
    }
  }

  lemma WaitBrings(tokens: real, cost: real, rate: real, slept: real)
    requires rate > 0.0 && tokens < cost && slept >= (cost - tokens) / rate
    ensures slept >= 0.0 && tokens + slept * rate >= cost
  {
    var wait := (cost - tokens) / rate;
    DivPositive(cost - tokens, rate);
    MulDistributes(wait, slept - wait, rate);
    MulNonNegative(slept - wait, rate);
    assert wait + (slept - wait) == slept;
  }

  /** Sleeping the returned wait lets at least the missing tokens drip in. */
  lemma WaitIsEnough(b: Option<Bucket>, lim: Limits, cost: real, now: real, later: real)
    requires lim.rate > 0.0 && !Affordable(b, lim, cost, now) && later >= now + WaitFor(b, lim, cost, now)
    ensures later >= now && Spent(b, lim, cost, now) == Refilled(b, lim, now)
    ensures Spent(b, lim, cost, now).tokens + Gain(now, later, lim.rate) >= cost
  {
    WaitBrings(Refilled(b, lim, now).tokens, cost, lim.rate, later - now);
  }

  /**
   * Progress: after a denied try, sleeping the returned wait and trying again succeeds, unless some
   * other call on the key was granted in between.
   */
  lemma RetryAfterWait(b: Option<Bucket>, lim: Limits, cost: real, now: real, others: seq<Call>, later: real)
    requires lim.rate > 0.0 && cost <= lim.burst
    requires !Affordable(b, lim, cost, now) && later >= now + WaitFor(b, lim, cost, now)
    requires others != [] ==> AllDenied(Some(Spent(b, lim, cost, now)), lim, others) && Times(now, others, later)
    ensures Affordable(After(Some(Spent(b, lim, cost, now)), lim, others), lim, cost, later)
  {
    var left := Spent(b, lim, cost, now);
    WaitIsEnough(b, lim, cost, now, later);
    DeniedCallsOnlyRefill(left, lim, others, later);
  }

  lemma SecondTry(b: Option<Bucket>, lim: Limits, cost: real, now: real, later: real)
    requires lim.rate > 0.0 && !Affordable(b, lim, cost, now) && later >= now + WaitFor(b, lim, cost, now)
    ensures cost <= lim.burst ==> Affordable(Some(Spent(b, lim, cost, now)), lim, cost, later)
  {
    if cost <= lim.burst {
      RetryAfterWait(b, lim, cost, now, [], later);
    }
  }

  /** What is known after so many denied tries of the waiting loop. */
  predicate Waited(start: Option<Bucket>, lim: Limits, cost: real, clock: seq<real>, tries: nat, b: Option<Bucket>)
    requires tries <= |clock|
  {
    && (tries == 0 ==> b == start)
    && (tries > 0 ==> !Affordable(start, lim, cost, clock[0]))
    && (tries == 1 ==> b == Some(Spent(start, lim, cost, clock[0])))
    && (tries >= 2 ==> cost > lim.burst)
  }

  /** The bucket after so many tries, all of them denied. */
  ghost predicate Denied(start: Option<Bucket>, lim: Limits, cost: real, clock: seq<real>, tries: nat,
                         b: Option<Bucket>)
    requires tries <= |clock|
  {
    && b == After(start, lim, TriesAt(cost, clock[..tries]))
    && AllDenied(start, lim, TriesAt(cost, clock[..tries]))
    && Waited(start, lim, cost, clock, tries, b)
  }

  lemma StillWaiting(start: Option<Bucket>, lim: Limits, cost: real, clock: seq<real>, tries: nat, b: Option<Bucket>)
    requires lim.rate > 0.0 && tries < |clock| && Waited(start, lim, cost, clock, tries, b)
    requires |clock| > 1 ==> clock[1] >= clock[0] + WaitFor(start, lim, cost, clock[0])
    ensures !Affordable(b, lim, cost, clock[tries]) ==>
      Waited(start, lim, cost, clock, tries + 1, Some(Spent(b, lim, cost, clock[tries])))
    ensures tries >= 1 && cost <= lim.burst ==> Affordable(b, lim, cost, clock[tries])
    ensures cost > lim.burst ==> !Affordable(b, lim, cost, clock[tries])
  {
    if tries == 1 {
      SecondTry(start, lim, cost, clock[0], clock[1]);
    }
  }

  /**
   * How the waiting loop ends: all tries but the last were denied, and the last was granted or the times
   * are used up. A cost within the burst is granted by the second try, and a larger one never.
   */
  ghost predicate Waits(start: Option<Bucket>, lim: Limits, cost: real, clock: seq<real>, tries: nat, granted: bool,
                        b: Option<Bucket>)
  {
    && 1 <= tries <= |clock|
    && b == After(start, lim, TriesAt(cost, clock[..tries]))
    && var earlier := TriesAt(cost, clock[..tries - 1]);
    && AllDenied(start, lim, earlier)
    && (granted <==> Affordable(After(start, lim, earlier), lim, cost, clock[tries - 1]))
    && (cost <= lim.burst && |clock| >= 2 ==> granted && tries <= 2)
    && (cost > lim.burst ==> !granted)
    && (!granted ==> tries == |clock|)
  }

  lemma AnotherTry(start: Option<Bucket>, lim: Limits, cost: real, clock: seq<real>, tries: nat, b: Option<Bucket>)
    requires lim.rate > 0.0 && tries < |clock| && Denied(start, lim, cost, clock, tries, b)
    requires |clock| > 1 ==> clock[1] >= clock[0] + WaitFor(start, lim, cost, clock[0])
    ensures WaitFor(b, lim, cost, clock[tries]) <= 0.0 <==> Affordable(b, lim, cost, clock[tries])
    ensures Affordable(b, lim, cost, clock[tries]) ==>
      Waits(start, lim, cost, clock, tries + 1, true, Some(Spent(b, lim, cost, clock[tries])))
    ensures !Affordable(b, lim, cost, clock[tries]) ==>
      Denied(start, lim, cost, clock, tries + 1, Some(Spent(b, lim, cost, clock[tries])))
  {
    NoWaitMeansGranted(b, lim, cost, clock[tries]);
    StillWaiting(start, lim, cost, clock, tries, b);
    OneMoreTry(start, lim, cost, clock, tries);
  }

  lemma LastTryDenied(start: Option<Bucket>, lim: Limits, cost: real, clock: seq<real>, tries: nat)
    requires 0 < tries <= |clock| && AllDenied(start, lim, TriesAt(cost, clock[..tries]))
    ensures var earlier := TriesAt(cost, clock[..tries - 1]);
      AllDenied(start, lim, earlier) && !Affordable(After(start, lim, earlier), lim, cost, clock[tries - 1])
  {
    var earlier, all := TriesAt(cost, clock[..tries - 1]), TriesAt(cost, clock[..tries]);
    TriesSnoc(cost, clock, tries - 1);
    assert all[..tries - 1] == earlier && all[tries - 1] == Call(cost, clock[tries - 1]);
    assert forall i :: 0 <= i < tries - 1 ==> earlier[..i] == all[..i];
  }

  lemma AllTriesDenied(start: Option<Bucket>, lim: Limits, cost: real, clock: seq<real>, b: Option<Bucket>)
    requires lim.rate > 0.0 && clock != [] && Denied(start, lim, cost, clock, |clock|, b)
    ensures Waits(start, lim, cost, clock, |clock|, false, b)
  {
    LastTryDenied(start, lim, cost, clock, |clock|);
  }

  /** A key that has not been seen has a whole burst to spend. */
  lemma FirstTry(lim: Limits, cost: real, now: real)
    requires lim.rate > 0.0
    ensures WaitFor(None, lim, cost, now) == if cost <= lim.burst then 0.0 else (cost - lim.burst) / lim.rate
    ensures Spent(None, lim, cost, now) == Bucket(if cost <= lim.burst then lim.burst - cost else lim.burst, now)
  {
  }

  lemma ShortWaitBrings(missing: real, rate: real, elapsed: real)
    requires rate > 0.0 && elapsed < missing / rate
    ensures elapsed * rate < missing
  {
    DivTimes(missing, rate);
    ProductGrows(elapsed, missing / rate, rate);
  }

  lemma DivTimes(a: real, b: real)
    requires b > 0.0
    ensures (a / b) * b == a
  {
  }

  lemma ProductGrows(x: real, y: real, r: real)
    requires x < y && r > 0.0
    ensures x * r < y * r
  {
  }

  /** The wait is no longer than it has to be: any earlier retry is denied as well. */
  lemma WaitIsLeast(b: Option<Bucket>, lim: Limits, cost: real, now: real, later: real)
    requires lim.rate > 0.0 && !Affordable(b, lim, cost, now) && now <= later < now + WaitFor(b, lim, cost, now)
    ensures !Affordable(Some(Spent(b, lim, cost, now)), lim, cost, later)
  {
    var left := Refilled(b, lim, now).tokens;
    ShortWaitBrings(cost - left, lim.rate, later - now);
  }

  // ---- Hosts do not affect each other ----

  datatype HostCall = HostCall(host: string, call: Call)

  function Lookup(m: map<string, Bucket>, host: string): Option<Bucket> {
    if host in m then Some(m[host]) else None
  }

  /** All hosts of a limiter, each with its own limits. */
  function AfterAll(m: map<string, Bucket>, limits: string -> Limits, calls: seq<HostCall>): map<string, Bucket>
  {
    if calls == [] then m
    else
      var before, c := AfterAll(m, limits, calls[..|calls| - 1]), calls[|calls| - 1];
      before[c.host := Spent(Lookup(before, c.host), limits(c.host), c.call.cost, c.call.now)]
  }

  function CallsOf(calls: seq<HostCall>, host: string): seq<Call> {
    if calls == [] then []
    else CallsOf(calls[..|calls| - 1], host) + if calls[|calls| - 1].host == host then [calls[|calls| - 1].call] else []
  }

  /** A host's bucket, and so every decision on it, depends on that host's own calls only. */
  lemma {:induction false} HostsAreIndependent(m: map<string, Bucket>, limits: string -> Limits,
                                               calls: seq<HostCall>, host: string)
    ensures Lookup(AfterAll(m, limits, calls), host) == After(Lookup(m, host), limits(host), CallsOf(calls, host))
    decreases |calls|
  {
    if calls != [] {
      var init, c := calls[..|calls| - 1], calls[|calls| - 1];
      HostsAreIndependent(m, limits, init, host);
      if c.host == host {
        assert (CallsOf(init, host) + [c.call])[..|CallsOf(init, host)|] == CallsOf(init, host);
      } else {
        assert CallsOf(calls, host) == CallsOf(init, host);
      }
    }
  }

  // ---- The Redis script ----

  datatype ScriptResult = ScriptResult(tokens: real, updated: real, allowed: int)

  /** The script, line by line; a missing key reads as nil. */
  function Script(stored: Option<Bucket>, now: real, rate: real, cap: real, cost: real): ScriptResult {
    var tokens0 := if stored.None? then cap else stored.value.tokens;
    var updated := if stored.None? then now else stored.value.updatedAt;
    var delta := MaxR(0.0, now - updated);
    var tokens := MinR(cap, tokens0 + delta * rate);
    if tokens >= cost then ScriptResult(tokens - cost, now, 1) else ScriptResult(tokens, now, 0)
  }

  /** The caller of the script turns its answer into a wait. */
  function RedisWait(lim: Limits, cost: real, r: ScriptResult): real
    requires lim.rate > 0.0
  {
    if r.allowed == 1 then 0.0 else MaxR(0.0, (cost - r.tokens) / lim.rate)
  }

  const EXPIRY: real := 3600.0

  /** `gone` says that the key had expired when the call came. */
  datatype RedisCall = RedisCall(call: Call, gone: bool)

  function RedisAfter(lim: Limits, calls: seq<RedisCall>): Option<Bucket> {
    if calls == [] then None
    else
      var c, before := calls[|calls| - 1], RedisAfter(lim, calls[..|calls| - 1]);
      var r := ScriptAt(lim, before, c);
      Some(Bucket(r.tokens, r.updated))
  }

  /** The script's run for one more call. */
  function ScriptAt(lim: Limits, before: Option<Bucket>, c: RedisCall): ScriptResult {
    Script(if c.gone then None else before, c.call.now, lim.rate, lim.burst, c.call.cost)
  }

  /** A key can only be gone when at least the expiry has passed since the last call. */
  predicate ExpiryRespected(calls: seq<RedisCall>) {
    forall i :: 0 < i < |calls| && calls[i].gone ==> calls[i].call.now - calls[i - 1].call.now >= EXPIRY
  }

  function Plain(calls: seq<RedisCall>): seq<Call> {
    seq(|calls|, i requires 0 <= i < |calls| => calls[i].call)
  }

  /** The two backends agree on the next call: same wait, and the same bucket afterwards. */
  predicate SameVerdict(lim: Limits, before: seq<RedisCall>, c: RedisCall)
    requires lim.rate > 0.0
  {
    var b := After(None, lim, Plain(before));
    var r := ScriptAt(lim, RedisAfter(lim, before), c);
    && WaitFor(b, lim, c.call.cost, c.call.now) == RedisWait(lim, c.call.cost, r)
    && Spent(b, lim, c.call.cost, c.call.now) == Bucket(r.tokens, r.updated)
  }

  lemma ExpiredKeyIsFull(b: Bucket, lim: Limits, now: real)
    requires lim.rate > 0.0 && EXPIRY * lim.rate >= lim.burst && b.tokens >= MinR(0.0, lim.burst)
    requires now - b.updatedAt >= EXPIRY
    ensures Refilled(Some(b), lim, now) == Bucket(lim.burst, now) == Refilled(None, lim, now)
  {
    GainAdds(b.updatedAt, b.updatedAt + EXPIRY, now, lim.rate);
    GainNonNegative(b.updatedAt + EXPIRY, now, lim.rate);
    GainNonNegative(now, now, lim.rate);
    GainNonNegative(0.0, EXPIRY, lim.rate);
    assert Gain(b.updatedAt, b.updatedAt + EXPIRY, lim.rate) == EXPIRY * lim.rate == Gain(0.0, EXPIRY, lim.rate);
  }

  /** The script computes the local bucket's verdict from the same stored bucket. */
  lemma ScriptIsTry(b: Option<Bucket>, lim: Limits, cost: real, now: real)
    requires lim.rate > 0.0
    ensures var r := Script(b, now, lim.rate, lim.burst, cost);
      && Bucket(r.tokens, r.updated) == Spent(b, lim, cost, now)
      && RedisWait(lim, cost, r) == WaitFor(b, lim, cost, now)
  {
    NoWaitMeansGranted(b, lim, cost, now);
  }

  /** Whether a key is missing or full makes no difference. */
  lemma RefillDecides(a: Option<Bucket>, b: Option<Bucket>, lim: Limits, cost: real, now: real)
    requires lim.rate > 0.0 && Refilled(a, lim, now) == Refilled(b, lim, now)
    ensures Spent(a, lim, cost, now) == Spent(b, lim, cost, now)
    ensures WaitFor(a, lim, cost, now) == WaitFor(b, lim, cost, now)
  {
  }

  lemma VerdictsAgree(lim: Limits, before: seq<RedisCall>, c: RedisCall)
    requires lim.rate > 0.0 && RedisAfter(lim, before) == After(None, lim, Plain(before))
    requires EXPIRY * lim.rate >= lim.burst && ExpiryRespected(before + [c])
    ensures SameVerdict(lim, before, c)
  {
    var b := After(None, lim, Plain(before));
    var stored := if c.gone then None else b;
    if c.gone && before != [] {
      AfterTime(None, lim, Plain(before));
      TokensInRange(lim, Plain(before));
      assert (before + [c])[|before|] == c && (before + [c])[|before| - 1] == before[|before| - 1];
      ExpiredKeyIsFull(b.value, lim, c.call.now);
    }
    ScriptIsTry(stored, lim, c.call.cost, c.call.now);
    RefillDecides(stored, b, lim, c.call.cost, c.call.now);
  }

  lemma ExpiryRespectedInit(calls: seq<RedisCall>, n: nat)
    requires n <= |calls| && ExpiryRespected(calls)
    ensures ExpiryRespected(calls[..n])
  {
    var init := calls[..n];
    forall i | 0 < i < |init| && init[i].gone ensures init[i].call.now - init[i - 1].call.now >= EXPIRY {
      assert init[i] == calls[i] && init[i - 1] == calls[i - 1];
    }
  }

  lemma RedisStep(lim: Limits, before: seq<RedisCall>, c: RedisCall)
    requires lim.rate > 0.0 && SameVerdict(lim, before, c)
    ensures RedisAfter(lim, before + [c]) == After(None, lim, Plain(before + [c]))
  {
    assert (before + [c])[..|before|] == before;
    assert Plain(before + [c]) == Plain(before) + [c.call];
    assert (Plain(before) + [c.call])[..|before|] == Plain(before);
  }

  /** On the same timestamped calls the Redis bucket is the local bucket. */
  lemma {:induction false} RedisIsLocal(lim: Limits, calls: seq<RedisCall>)
    requires lim.rate > 0.0 && EXPIRY * lim.rate >= lim.burst && ExpiryRespected(calls)
    ensures RedisAfter(lim, calls) == After(None, lim, Plain(calls))
    decreases |calls|
  {
    if calls != [] {
      var n := |calls| - 1;
      ExpiryRespectedInit(calls, n);
      RedisIsLocal(lim, calls[..n]);
      assert calls[..n] + [calls[n]] == calls;
      VerdictsAgree(lim, calls[..n], calls[n]);
      RedisStep(lim, calls[..n], calls[n]);
    }
  }

  /** So every decision on the way is the same as well. */
  lemma RedisDecidesLikeLocal(lim: Limits, calls: seq<RedisCall>, i: nat)
    requires lim.rate > 0.0 && EXPIRY * lim.rate >= lim.burst && ExpiryRespected(calls) && i < |calls|
    ensures SameVerdict(lim, calls[..i], calls[i])
  {
    ExpiryRespectedInit(calls, i);
    ExpiryRespectedInit(calls, i + 1);
    RedisIsLocal(lim, calls[..i]);
    assert calls[..i] + [calls[i]] == calls[..i + 1];
    VerdictsAgree(lim, calls[..i], calls[i]);
  }

  /** Two calls an hour apart: the first empties the bucket, the second asks for the whole burst. */
  function HourApart(lim: Limits): seq<RedisCall> {
    [RedisCall(Call(lim.burst, 0.0), false), RedisCall(Call(lim.burst, EXPIRY), true)]
  }

  lemma HourApartDiffers(lim: Limits)
    requires lim.rate > 0.0 && EXPIRY * lim.rate < lim.burst
    ensures ExpiryRespected(HourApart(lim)) && !SameVerdict(lim, HourApart(lim)[..1], HourApart(lim)[1])
  {
    var calls := HourApart(lim);
    var first := [calls[0]];
    assert calls[..1] == first && first[..0] == [];
    assert Plain(first) == [calls[0].call] && Plain(first)[..0] == [];
    GainNonNegative(0.0, EXPIRY, lim.rate);
    GainNonNegative(0.0, 0.0, lim.rate);
    GainNonNegative(EXPIRY, EXPIRY, lim.rate);
    assert Refilled(None, lim, 0.0).tokens == lim.burst && Refilled(None, lim, EXPIRY).tokens == lim.burst;
    var b := After(None, lim, Plain(first));
    assert After(None, lim, Plain(first)[..0]) == None;
    assert Spent(None, lim, lim.burst, 0.0) == Bucket(0.0, 0.0);
    assert b == Some(Spent(None, lim, lim.burst, 0.0)) == Some(Bucket(0.0, 0.0));
    assert Refilled(b, lim, EXPIRY).tokens == EXPIRY * lim.rate;
    assert ScriptAt(lim, RedisAfter(lim, first), calls[1]).tokens == 0.0;
  }

  /** Expiry is invisible to all histories if and only if an hour refills the bucket. */
  lemma ExpiryInvisibleIffHourRefills(lim: Limits)
    requires lim.rate > 0.0
    ensures (forall calls, i :: ExpiryRespected(calls) && 0 <= i < |calls| ==> SameVerdict(lim, calls[..i], calls[i]))
      <==> EXPIRY * lim.rate >= lim.burst
  {
    if EXPIRY * lim.rate >= lim.burst {
      forall calls, i | ExpiryRespected(calls) && 0 <= i < |calls| ensures SameVerdict(lim, calls[..i], calls[i]) {
        RedisDecidesLikeLocal(lim, calls, i);
      }
    } else {
      HourApartDiffers(lim);
      assert 1 < |HourApart(lim)|;
    }
  }

  /** With the default burst the condition is a rate of at least one request an hour. */
  lemma DefaultBurstCondition(rate: real)
    requires rate > 0.0
    ensures EXPIRY * rate >= DefaultBurst(rate) <==> rate >= 1.0 / EXPIRY
  {
  }
}
