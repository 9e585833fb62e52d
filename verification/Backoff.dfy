/** Bandwidth shaping by a token bucket with jittered waits, and the reconnect backoff. */
module Backoff {
  import opened Options

  const JITTER := 0.15

  /** Seconds, on the agent's monotone clock. */
  type Seconds = real

  datatype Bucket = Bucket(rate: real, tokens: real, maxTokens: real, lastRefill: Seconds)

  function Fresh(bytesPerSec: nat, now: Seconds): Bucket {
    Bucket(bytesPerSec as real, bytesPerSec as real, bytesPerSec as real * 2.0, now)
  }

  function Min(x: real, y: real): real {
    if x < y then x else y
  }

  function Max(x: real, y: real): real {
    if x < y then y else x
  }

  function Refilled(b: Bucket, now: Seconds): Bucket {
    b.(tokens := Min(b.tokens + Max(now - b.lastRefill, 0.0) * b.rate, b.maxTokens), lastRefill := now)
  }

  function Jittered(secs: real, draw: real): real {
    secs + secs * (draw * JITTER * 2.0 - JITTER)
  }

  /** What a consumer is told to wait; None when the division by a zero rate makes the conversion to a
      duration panic. */
  function WaitFor(b: Bucket, n: nat, draw: real): Option<Seconds> {
    if b.tokens >= n as real then Some(0.0)
    else if b.rate == 0.0 then None
    else Some(Max(Jittered((n as real - b.tokens) / b.rate, draw), 0.0))
  }

  function Spent(b: Bucket, n: nat): Bucket {
    b.(tokens := if b.tokens >= n as real then b.tokens - n as real else 0.0)
  }

  class TokenBucket {
    var rate: real
    var tokens: real
    var maxTokens: real
    var lastRefill: Seconds

    function Value(): Bucket
      reads this
    {
      Bucket(rate, tokens, maxTokens, lastRefill)
    }

    constructor (bytesPerSec: nat, now: Seconds)
      ensures Value() == Fresh(bytesPerSec, now)
    {
      rate, tokens, maxTokens := bytesPerSec as real, bytesPerSec as real, bytesPerSec as real * 2.0;
      lastRefill := now;
    }

    method Refill(now: Seconds)
      modifies this
      ensures Value() == Refilled(old(Value()), now)
    {
      var elapsed := if now < lastRefill then 0.0 else now - lastRefill;
      tokens := Min(tokens + elapsed * rate, maxTokens);
      lastRefill := now;
    }

    method Consume(n: nat, now: Seconds, draw: real) returns (wait: Option<Seconds>)
      modifies this
      ensures Value() == Spent(Refilled(old(Value()), now), n)
      ensures wait == WaitFor(Refilled(old(Value()), now), n, draw)
    {
      Refill(now);
      ghost var full := Value();
      assert full == Refilled(old(Value()), now);
      var wanted := n as real;
      if tokens >= wanted {
        tokens := tokens - wanted;
        return Some(0.0);
      }
      var deficit := wanted - tokens;
      tokens := 0.0;
      if rate == 0.0 {
        return None;
      }
      var waitSecs := deficit / rate;
      var jitter := waitSecs * (draw * JITTER * 2.0 - JITTER);
      var total := waitSecs + jitter;
      assert total == Jittered((n as real - full.tokens) / full.rate, draw);
      return Some(if total < 0.0 then 0.0 else total);
    }
  }

  // ----- what a well-behaved caller gets through -----

  /** One request, and the jitter drawn if it has to wait. */
  datatype Call = Call(n: nat, now: Seconds, draw: real)

  function After(b: Bucket, calls: seq<Call>): Bucket {
    if calls == [] then b
    else
      var c := calls[|calls| - 1];
      Spent(Refilled(After(b, calls[..|calls| - 1]), c.now), c.n)
  }

  /** The wait answered to the last call. */
  function LastWait(b: Bucket, calls: seq<Call>): Option<Seconds>
    requires calls != []
  {
    var c := calls[|calls| - 1];
    WaitFor(Refilled(After(b, calls[..|calls| - 1]), c.now), c.n, c.draw)
  }

  /** When the caller may go on: the last call's time and the wait it was told. */
  function Ready(b: Bucket, calls: seq<Call>): Seconds {
    if calls == [] then b.lastRefill
    else
      var wait := LastWait(b, calls);
      calls[|calls| - 1].now + if wait.Some? then wait.value else 0.0
  }

  /** Every call was answered, and the caller slept each wait before it called again. */
  predicate Patient(b: Bucket, calls: seq<Call>) {
    calls != [] ==>
      var c := calls[|calls| - 1];
      var before := calls[..|calls| - 1];
      && Patient(b, before)
      && c.now >= Ready(b, before)
      && 0.0 <= c.draw <= 1.0
      && LastWait(b, calls).Some?
  }

  function Admitted(calls: seq<Call>): real {
    if calls == [] then 0.0 else Admitted(calls[..|calls| - 1]) + calls[|calls| - 1].n as real
  }

  function Slept(b: Bucket, calls: seq<Call>): Seconds {
    if calls == [] then 0.0
    else
      var wait := LastWait(b, calls);
      Slept(b, calls[..|calls| - 1]) + if wait.Some? then wait.value else 0.0
  }

  predicate Sound(b: Bucket) {
    b.rate > 0.0 && 0.0 <= b.tokens && b.maxTokens == 2.0 * b.rate && b.tokens <= b.maxTokens
  }

  /** Bytes earned in a time. */
  function Earned(rate: real, secs: Seconds): real {
    rate * secs
  }

  lemma EarnedAdds(rate: real, x: Seconds, y: Seconds)
    ensures Earned(rate, x) + Earned(rate, y) == Earned(rate, x + y)
    ensures x <= y && rate >= 0.0 ==> Earned(rate, x) <= Earned(rate, y)
    ensures Earned(rate, 0.0) == 0.0
  {
    if x <= y && rate >= 0.0 {
      Scales(x, y, rate);
    }
  }

  lemma Scales(x: real, y: real, rate: real)
    requires x <= y && rate >= 0.0
    ensures x * rate <= y * rate
  {
    NonNegative(y - x, rate);
    assert (y - x) * rate == y * rate - x * rate;
  }

  lemma ShareIsBounded(secs: real, draw: real)
    requires secs >= 0.0 && 0.0 <= draw <= 1.0
    ensures 0.0 <= draw * secs <= secs
  {
    NonNegative(draw, secs);
    NonNegative(1.0 - draw, secs);
    assert (1.0 - draw) * secs == secs - draw * secs;
  }

  lemma NonNegative(x: real, y: real)
    requires x >= 0.0 && y >= 0.0
    ensures x * y >= 0.0
  {
  }

  /** Jitter shortens a wait by 15% at most. */
  lemma JitterIsBounded(secs: real, draw: real)
    requires secs >= 0.0 && 0.0 <= draw <= 1.0
    ensures 0.85 * secs <= Jittered(secs, draw) <= 1.15 * secs
  {
    hide Jittered;
    JitteredIs(secs, draw);
    ShareIsBounded(secs, draw);
  }

  /** The jitter, multiplied out. */
  lemma JitteredIs(secs: real, draw: real)
    ensures Jittered(secs, draw) == 0.85 * secs + 0.3 * (draw * secs)
  {
    assert secs * (draw * JITTER * 2.0 - JITTER) == 0.3 * (draw * secs) - 0.15 * secs;
  }

  /** A call never admits more than the tokens it finds and what its wait, had it not been jittered,
      would have earned. */
  lemma OneCall(b: Bucket, n: nat, draw: real, now: Seconds)
    requires Sound(b) && now >= b.lastRefill && 0.0 <= draw <= 1.0
    ensures var full := Refilled(b, now); var wait := WaitFor(full, n, draw);
            && Sound(Spent(full, n)) && wait.Some? && wait.value >= 0.0
            && n as real + Spent(full, n).tokens <= b.tokens + Earned(b.rate, now - b.lastRefill) + Earned(b.rate, wait.value) / 0.85
  {
    var full := Refilled(b, now);
    Scales(0.0, now - b.lastRefill, b.rate);
    EarnedAdds(b.rate, 0.0, now - b.lastRefill);
    if full.tokens < n as real {
      DeficitIsEarned(n as real - full.tokens, b.rate, draw);
    }
  }

  lemma DeficitIsEarned(deficit: real, rate: real, draw: real)
    requires deficit >= 0.0 && rate > 0.0 && 0.0 <= draw <= 1.0
    ensures deficit / rate >= 0.0 && Jittered(deficit / rate, draw) >= 0.0
    ensures deficit <= Earned(rate, Jittered(deficit / rate, draw)) / 0.85
  {
    var secs := deficit / rate;
    assert secs * rate == deficit;
    assert secs >= 0.0;
    JitterIsBounded(secs, draw);
    Scales(0.85 * secs, Jittered(secs, draw), rate);
  }

  lemma LastRefillIsNow(b: Bucket, calls: seq<Call>)
    requires calls != []
    ensures After(b, calls).lastRefill == calls[|calls| - 1].now
    ensures After(b, calls).rate == After(b, calls[..|calls| - 1]).rate
  {
  }

  /** Everything admitted, with what is left, is paid for: by the tokens at the start, by the time that
      passed, and a second time by every wait. */
  lemma {:induction false} Ledger(b: Bucket, calls: seq<Call>)
    requires Sound(b) && Patient(b, calls)
    ensures var e := After(b, calls);
            && Sound(e) && e.rate == b.rate && e.lastRefill <= Ready(b, calls)
            && 0.0 <= Slept(b, calls) <= Ready(b, calls) - b.lastRefill
            && Admitted(calls) + e.tokens
               <= b.tokens + Earned(b.rate, e.lastRefill - b.lastRefill) + Earned(b.rate, Slept(b, calls)) / 0.85
  {
    hide Earned, Refilled, WaitFor, Spent, Sound;
    if calls == [] {
      EarnedAdds(b.rate, 0.0, 0.0);
    } else {
      LastRefillIsNow(b, calls);
      var before := calls[..|calls| - 1];
      var c := calls[|calls| - 1];
      Ledger(b, before);
      var m := After(b, before);
      OneCall(m, c.n, c.draw, c.now);
      EarnedAdds(b.rate, m.lastRefill - b.lastRefill, c.now - m.lastRefill);
      EarnedAdds(b.rate, Slept(b, before), LastWait(b, calls).value);
    }
  }

  /** A caller that sleeps every wait is let through at most two seconds' worth at once, and from then on
      1 + 1/0.85 times the rate, whatever jitter is drawn. */
  lemma AmortisedBound(b: Bucket, calls: seq<Call>)
    requires Sound(b) && Patient(b, calls)
    ensures Admitted(calls)
         <= 2.0 * b.rate + Earned(b.rate, Ready(b, calls) - b.lastRefill) * (1.0 + 1.0 / 0.85)
  {
    hide Earned, Patient, After, Slept, Ready, Admitted;
    Ledger(b, calls);
    var e, t := After(b, calls), Ready(b, calls) - b.lastRefill;
    EarnedAdds(b.rate, e.lastRefill - b.lastRefill, t);
    EarnedAdds(b.rate, Slept(b, calls), t);
  }

  // ----- when the plain bound holds -----

  /** Every call finds enough tokens. */
  predicate Covered(b: Bucket, calls: seq<Call>) {
    calls != [] ==>
      var c := calls[|calls| - 1];
      var before := calls[..|calls| - 1];
      Covered(b, before) && Refilled(After(b, before), c.now).tokens >= c.n as real
  }

  /** A patient caller never sleeps if and only if every call finds enough tokens. */
  lemma {:induction false} CoveredNeverSleeps(b: Bucket, calls: seq<Call>)
    requires Sound(b) && Patient(b, calls)
    ensures Slept(b, calls) == 0.0 <==> Covered(b, calls)
  {
    hide Earned, Refilled, Spent, Sound, Jittered;
    if calls != [] {
      var before := calls[..|calls| - 1];
      var c := calls[|calls| - 1];
      CoveredNeverSleeps(b, before);
      Ledger(b, before);
      OneCall(After(b, before), c.n, c.draw, c.now);
      ShortCallWaits(After(b, before), c.n, c.draw, c.now);
    }
  }

  lemma ShortCallWaits(b: Bucket, n: nat, draw: real, now: Seconds)
    requires Sound(b) && now >= b.lastRefill && 0.0 <= draw <= 1.0
    ensures var full := Refilled(b, now); var wait := WaitFor(full, n, draw);
            wait.Some? && (wait.value == 0.0 <==> full.tokens >= n as real)
  {
    hide Earned, Jittered;
    var full := Refilled(b, now);
    OneCall(b, n, draw, now);
    if full.tokens < n as real {
      DeficitIsEarned(n as real - full.tokens, b.rate, draw);
      EarnedAdds(b.rate, 0.0, 0.0);
    }
  }

  /** For such a caller the bound one expects of a token bucket holds: what was there, and the rate. */
  lemma PlainBoundHolds(b: Bucket, calls: seq<Call>)
    requires Sound(b) && Patient(b, calls) && Covered(b, calls)
    ensures Admitted(calls) <= b.tokens + Earned(b.rate, Ready(b, calls) - b.lastRefill)
  {
    hide Earned, Patient, Covered, After, Slept, Ready, Admitted;
    Ledger(b, calls);
    CoveredNeverSleeps(b, calls);
    EarnedAdds(b.rate, After(b, calls).lastRefill - b.lastRefill, Ready(b, calls) - b.lastRefill);
    EarnedAdds(b.rate, 0.0, 0.0);
  }

  // ----- the second payment is real -----

  /** `p` taken k times. */
  function Times(p: real, k: nat): real {
    if k == 0 then 0.0 else Times(p, k - 1) + p
  }

  lemma {:induction false} TimesIsProduct(p: real, k: nat)
    ensures Times(p, k) == p * k as real
  {
    if k > 0 {
      TimesIsProduct(p, k - 1);
      assert p * k as real == p * (k - 1) as real + p;
    }
  }

  lemma {:induction false} EarnedTimes(rate: real, p: Seconds, k: nat)
    ensures Earned(rate, Times(p, k)) == Times(Earned(rate, p), k)
  {
    hide Earned;
    EarnedAdds(rate, 0.0, 0.0);
    if k > 0 {
      EarnedTimes(rate, p, k - 1);
      EarnedAdds(rate, Times(p, k - 1), p);
    }
  }

  lemma {:induction false} TimesAdds(p: real, q: real, k: nat)
    ensures Times(p + q, k) == Times(p, k) + Times(q, k)
  {
    if k > 0 {
      TimesAdds(p, q, k - 1);
    }
  }

  /** The share of a request that a caller is always short of, if it asks again as soon as it may. */
  function Shortage(bytes: nat, draw: real): real
    requires 0.0 <= draw <= 1.0
  {
    bytes as real / (1.85 + 0.3 * draw)
  }

  function Pause(rate: nat, bytes: nat, draw: real): Seconds
    requires rate > 0 && 0.0 <= draw <= 1.0
  {
    Jittered(Shortage(bytes, draw) / rate as real, draw)
  }

  /** A pause earns the rest of the request. */
  lemma PauseEarns(rate: nat, bytes: nat, draw: real)
    requires rate > 0 && bytes > 0 && 0.0 <= draw <= 1.0
    ensures 0.0 < Shortage(bytes, draw) < bytes as real
    ensures Earned(rate as real, Pause(rate, bytes, draw)) == bytes as real - Shortage(bytes, draw)
    ensures Pause(rate, bytes, draw) > 0.0
    ensures draw == 0.0 ==> Earned(rate as real, Pause(rate, bytes, draw)) == 0.85 * Shortage(bytes, draw)
  {
    var d, r := Shortage(bytes, draw), rate as real;
    var secs := d / r;
    assert d * (1.85 + 0.3 * draw) == bytes as real;
    assert d * (1.85 + 0.3 * draw) == 1.85 * d + 0.3 * (draw * d);
    assert d > 0.0;
    assert secs > 0.0 && secs * r == d;
    NonNegative(draw, d);
    JitterIsBounded(secs, draw);
    JitteredIs(secs, draw);
    assert draw * secs * r == draw * d by { Regroup(draw, secs, r); }
    assert r * (0.85 * secs + 0.3 * (draw * secs)) == 0.85 * (secs * r) + 0.3 * (draw * secs * r);
  }

  lemma Regroup(x: real, y: real, z: real)
    ensures x * y * z == x * (y * z)
  {
  }

  /** A caller at any rate: first all the tokens, then the same number of bytes after every pause, each
      wait drawn alike. */
  function GreedyCall(rate: nat, bytes: nat, draw: real, k: nat): Call
    requires rate > 0 && 0.0 <= draw <= 1.0
  {
    Call(if k == 0 then rate else bytes, Times(Pause(rate, bytes, draw), k), draw)
  }

  function GreedyRun(rate: nat, bytes: nat, draw: real, k: nat): (calls: seq<Call>)
    requires rate > 0 && 0.0 <= draw <= 1.0
    ensures |calls| == k
  {
    if k == 0 then [] else GreedyRun(rate, bytes, draw, k - 1) + [GreedyCall(rate, bytes, draw, k - 1)]
  }

  /** The greedy caller sleeps every wait, and finds the bucket empty but for what its pause earned. */
  lemma {:induction false} GreedyIsPatient(rate: nat, bytes: nat, draw: real, k: nat)
    requires rate > 0 && 0 < bytes <= 2 * rate && 0.0 <= draw <= 1.0 && k > 0
    ensures var b, calls, p := Fresh(rate, 0.0), GreedyRun(rate, bytes, draw, k), Pause(rate, bytes, draw);
            && Patient(b, calls)
            && After(b, calls) == Bucket(rate as real, 0.0, rate as real * 2.0, Times(p, k - 1))
            && Slept(b, calls) == Times(p, k - 1)
            && Ready(b, calls) == Times(p, if k == 1 then 0 else k)
            && Admitted(calls) == rate as real + Times(bytes as real, k - 1)
  {
    hide Pause, Shortage, Jittered;
    var b, calls := Fresh(rate, 0.0), GreedyRun(rate, bytes, draw, k);
    var before, c := GreedyRun(rate, bytes, draw, k - 1), GreedyCall(rate, bytes, draw, k - 1);
    assert calls[..k - 1] == before && calls[k - 1] == c;
    if k > 1 {
      GreedyIsPatient(rate, bytes, draw, k - 1);
      GreedyStep(rate, bytes, draw, After(b, before), c.now);
    } else {
      assert before == [];
      assert Max(0.0 - 0.0, 0.0) * rate as real == 0.0;
    }
  }

  /** One request of the greedy caller, a pause after the bucket was emptied. */
  lemma GreedyStep(rate: nat, bytes: nat, draw: real, empty: Bucket, now: Seconds)
    requires rate > 0 && 0 < bytes <= 2 * rate && 0.0 <= draw <= 1.0
    requires empty.rate == rate as real && empty.tokens == 0.0 && empty.maxTokens == rate as real * 2.0
    requires now == empty.lastRefill + Pause(rate, bytes, draw)
    ensures WaitFor(Refilled(empty, now), bytes, draw) == Some(Pause(rate, bytes, draw))
    ensures Spent(Refilled(empty, now), bytes) == empty.(lastRefill := now)
  {
    hide Jittered, Shortage;
    PauseEarns(rate, bytes, draw);
    var p := Pause(rate, bytes, draw);
    assert Max(now - empty.lastRefill, 0.0) == p;
    assert p * rate as real == Earned(rate as real, p);
    assert Refilled(empty, now).tokens == bytes as real - Shortage(bytes, draw);
  }

  /** With the shortest waits drawn, the greedy caller attains the ledger's bound, at every rate and for any
      number of calls. */
  lemma LedgerIsTight(rate: nat, bytes: nat, k: nat)
    requires rate > 0 && 0 < bytes <= 2 * rate && k > 0
    ensures var b, calls := Fresh(rate, 0.0), GreedyRun(rate, bytes, 0.0, k);
            && Sound(b) && Patient(b, calls)
            && Admitted(calls) + After(b, calls).tokens
               == b.tokens + Earned(b.rate, After(b, calls).lastRefill - b.lastRefill)
                  + Earned(b.rate, Slept(b, calls)) / 0.85
  {
    hide Pause, Shortage, Jittered, Patient, Slept, Admitted, After, Earned, GreedyRun;
    var p, d := Pause(rate, bytes, 0.0), Shortage(bytes, 0.0);
    GreedyIsPatient(rate, bytes, 0.0, k);
    PauseEarns(rate, bytes, 0.0);
    EarnedTimes(rate as real, p, k - 1);
    TimesAdds(0.85 * d, d, k - 1);
    TimesIsProduct(0.85 * d, k - 1);
    TimesIsProduct(d, k - 1);
  }

  /** After k calls the greedy caller has slept every wait, and got through more than a burst of 2R and
      then R per second, by more than this excess. */
  ghost predicate Exceeds(rate: nat, bytes: nat, draw: real, k: nat, excess: real)
    requires rate > 0 && 0.0 <= draw <= 1.0
  {
    var b, calls := Fresh(rate, 0.0), GreedyRun(rate, bytes, draw, k);
    && Patient(b, calls)
    && Admitted(calls) > 2.0 * b.rate + Earned(b.rate, Ready(b, calls) - b.lastRefill) + excess
  }

  /** So the plain bound fails at every rate and whatever jitter is drawn, by as much as one likes. */
  lemma PlainBoundFails(rate: nat, bytes: nat, draw: real, excess: real)
    requires rate > 0 && 0 < bytes <= 2 * rate && 0.0 <= draw <= 1.0
    ensures Sound(Fresh(rate, 0.0))
    ensures exists k: nat :: Exceeds(rate, bytes, draw, k, excess)
  {
    hide Pause, Shortage, Jittered, Patient, Slept, Admitted, After, Earned, GreedyRun, Ready;
    var p, d := Pause(rate, bytes, draw), Shortage(bytes, draw);
    PauseEarns(rate, bytes, draw);
    var k := TimesPasses(d, excess + rate as real + bytes as real);
    GreedyIsPatient(rate, bytes, draw, k);
    EarnedTimes(rate as real, p, k);
    TimesAdds(d, bytes as real - d, k);
    assert Exceeds(rate, bytes, draw, k, excess);
  }

  lemma TimesPasses(d: real, x: real) returns (k: nat)
    requires d > 0.0
    ensures k > 1 && Times(d, k) > x
  {
    var y := if x < 0.0 then 0.0 else x;
    assert y / d >= 0.0;
    k := (y / d).Floor + 2;
    TimesIsProduct(d, k);
    assert y / d * d == y;
    assert k as real >= y / d + 1.0;
    Scales(y / d + 1.0, k as real, d);
  }

  // ----- reconnect backoff -----

  const BACKOFF_JITTER := 0.25

  function Doubled(initial: Seconds, attempt: nat): Seconds {
    if attempt == 0 then initial else 2.0 * Doubled(initial, attempt - 1)
  }

  function Delay(initial: Seconds, max: Seconds, attempt: nat): Seconds {
    Min(Doubled(initial, attempt), max)
  }

  function Shaken(secs: Seconds, draw: real): Seconds {
    Max(secs + secs * BACKOFF_JITTER * (draw * 2.0 - 1.0), 0.0)
  }

  class ExponentialBackoff {
    const initial: Seconds
    const max: Seconds
    var attempt: nat

    constructor (initial: Seconds, max: Seconds)
      requires initial >= 0.0 && max >= 0.0
      ensures this.initial == initial && this.max == max && attempt == 0
    {
      this.initial, this.max, attempt := initial, max, 0;
    }

    method Next(draw: real) returns (secs: Seconds)
      modifies this
      ensures attempt == old(attempt) + 1
      ensures secs == Shaken(Delay(initial, max, old(attempt)), draw)
    {
      var base := Doubled(initial, attempt);
      attempt := attempt + 1;
      var capped := Min(base, max);
      var jitter := capped * BACKOFF_JITTER * (draw * 2.0 - 1.0);
      secs := Max(capped + jitter, 0.0);
    }

    method Reset()
      modifies this
      ensures attempt == 0
    {
      attempt := 0;
    }
  }

  lemma {:induction false} DelayGrows(initial: Seconds, max: Seconds, attempt: nat)
    requires initial >= 0.0 && max >= 0.0
    ensures 0.0 <= Doubled(initial, attempt) && 0.0 <= Delay(initial, max, attempt) <= max
    ensures Delay(initial, max, attempt) <= Delay(initial, max, attempt + 1)
  {
    if attempt > 0 {
      DelayGrows(initial, max, attempt - 1);
    }
  }

  function PowerOf2(n: nat): nat {
    if n == 0 then 1 else 2 * PowerOf2(n - 1)
  }

  /** Before jitter, attempt k waits initial * 2^k, but never longer than the cap. */
  lemma {:induction false} DelayDoubles(initial: Seconds, max: Seconds, attempt: nat)
    ensures var uncapped := initial * PowerOf2(attempt) as real;
            Doubled(initial, attempt) == uncapped && Delay(initial, max, attempt) == if uncapped < max then uncapped else max
  {
    if attempt > 0 {
      DelayDoubles(initial, max, attempt - 1);
    }
  }

  /** The shaken delay, multiplied out. */
  lemma ShakenIs(secs: Seconds, draw: real)
    ensures Shaken(secs, draw) == Max(0.75 * secs + 0.5 * (draw * secs), 0.0)
  {
    var x, y := secs * BACKOFF_JITTER, draw * 2.0 - 1.0;
    assert x * y == x * (draw * 2.0) - x;
    assert x * (draw * 2.0) == 0.5 * (draw * secs);
  }

  lemma ShakenIsBounded(secs: Seconds, draw: real)
    requires secs >= 0.0 && 0.0 <= draw <= 1.0
    ensures 0.75 * secs <= Shaken(secs, draw) <= 1.25 * secs
  {
    hide Shaken;
    ShakenIs(secs, draw);
    ShareIsBounded(secs, draw);
  }

  ghost predicate AlwaysShorter(secs: Seconds, later: Seconds) {
    forall d0, d1 | 0.0 <= d0 <= 1.0 && 0.0 <= d1 <= 1.0 :: Shaken(secs, d0) < Shaken(later, d1)
  }

  /** No wait is longer than 1.25 times the cap, and whatever is drawn each wait is longer than the one
      before it if and only if the delay still grows by more than two thirds. */
  lemma WaitsIncrease(initial: Seconds, max: Seconds, attempt: nat)
    requires initial >= 0.0 && max >= 0.0
    ensures forall draw | 0.0 <= draw <= 1.0 :: Shaken(Delay(initial, max, attempt), draw) <= 1.25 * max
    ensures AlwaysShorter(Delay(initial, max, attempt), Delay(initial, max, attempt + 1))
       <==> 5.0 * Delay(initial, max, attempt) < 3.0 * Delay(initial, max, attempt + 1)
  {
    hide Delay, Shaken;
    DelayGrows(initial, max, attempt);
    DelayGrows(initial, max, attempt + 1);
    var secs, later := Delay(initial, max, attempt), Delay(initial, max, attempt + 1);
    forall draw | 0.0 <= draw <= 1.0
      ensures 0.75 * secs <= Shaken(secs, draw) <= 1.25 * secs
      ensures 0.75 * later <= Shaken(later, draw) <= 1.25 * later
    {
      ShakenIsBounded(secs, draw);
      ShakenIsBounded(later, draw);
    }
    Extremes(secs);
    Extremes(later);
  }

  lemma Extremes(secs: Seconds)
    requires secs >= 0.0
    ensures Shaken(secs, 0.0) == 0.75 * secs && Shaken(secs, 1.0) == 1.25 * secs
  {
    hide Shaken;
    ShakenIs(secs, 0.0);
    ShakenIs(secs, 1.0);
  }
}
