/** What makes one candidate win over another: the parts of the score, and how they decide a selection. */
module SelectorChoice {
  import opened Options
  import opened CascadeSelector

  /** Five bands of round-trip time; an unknown one counts as 50 to 100 ms. */
  function Band(rtt: Option<nat>): nat {
    match rtt
    case None => 2
    case Some(ms) => if ms < 10 then 0 else if ms < 50 then 1 else if ms <= 100 then 2 else if ms <= 200 then 3 else 4
  }

  /** A probe of the last 60 seconds, if the lock on the probes is free. */
  function KnownRtt(s: State, c: Candidate, locks: Locks, now: Time): Option<nat> {
    if locks.probesFree && c.nodeId in s.probes && now < s.probes[c.nodeId].probedAt + 60 * SECOND
    then Some(s.probes[c.nodeId].rtt) else None
  }

  /** 0 elsewhere, 1 in the agent's region, 2 there and with its provider. */
  function Closeness(me: Self, c: Candidate): nat {
    if c.region != me.region then 0 else if c.isp != me.isp then 1 else 2
  }

  /** With twice the children allowed nothing is left of the local score, with more it is negative. */
  predicate HasRoom(c: Candidate) {
    c.maxChildren > 0 ==> c.currentChildren < 2 * c.maxChildren
  }

  predicate Overloaded(c: Candidate) {
    c.maxChildren > 0 && c.currentChildren > 2 * c.maxChildren
  }

  /** In nothing that counts is `a` behind `b`. */
  predicate NoWorse(me: Self, a: Candidate, rttA: Option<nat>, b: Candidate, rttB: Option<nat>) {
    && a.scoreHint >= b.scoreHint
    && a.maxChildren == b.maxChildren && (a.maxChildren > 0 ==> a.currentChildren <= b.currentChildren)
    && (b.bwRemainingMbps >= 4.0 ==> a.bwRemainingMbps >= 4.0)
    && (b.tier == 1 ==> a.tier == 1)
    && Closeness(me, a) >= Closeness(me, b)
    && (me.hasIpv6 && b.hasIpv6 ==> a.hasIpv6)
    && Band(rttA) <= Band(rttB)
  }

  /** In something it is ahead; while it has room, anything counts, else only the hint and the children. */
  predicate Ahead(me: Self, a: Candidate, rttA: Option<nat>, b: Candidate, rttB: Option<nat>) {
    || a.scoreHint > b.scoreHint
    || (a.maxChildren > 0 && a.currentChildren < b.currentChildren)
    || (HasRoom(a)
        && (a.bwRemainingMbps >= 4.0 > b.bwRemainingMbps
            || a.tier == 1 != b.tier
            || Closeness(me, a) > Closeness(me, b)
            || (me.hasIpv6 && a.hasIpv6 && !b.hasIpv6)
            || Band(rttA) < Band(rttB)))
  }

  // ----- the score as a product -----

  function LoadShare(c: Candidate): real {
    if c.maxChildren > 0 then 0.5 + 0.5 * (1.0 - c.currentChildren as real / c.maxChildren as real) else 1.0
  }

  function BandwidthFactor(c: Candidate): real {
    if c.bwRemainingMbps < 4.0 then 0.7 else 1.0
  }

  function TierFactor(c: Candidate): real {
    if c.tier == 1 then 1.1 else 1.0
  }

  function ClosenessFactor(me: Self, c: Candidate): real {
    match Closeness(me, c)
    case 0 => 1.0
    case 1 => 1.05
    case _ => 1.15
  }

  function Ipv6Factor(me: Self, c: Candidate): real {
    if me.hasIpv6 && c.hasIpv6 then 1.05 else 1.0
  }

  lemma LocalScoreIs(me: Self, c: Candidate)
    ensures LocalScore(me, c)
         == Product(Product(Product(Product(LoadShare(c), BandwidthFactor(c)), TierFactor(c)), ClosenessFactor(me, c)),
                    Ipv6Factor(me, c))
  {
  }

  lemma RttFactorFalls(a: Option<nat>, b: Option<nat>)
    ensures RttFactor(a) > 0.0
    ensures Band(a) < Band(b) ==> RttFactor(a) > RttFactor(b)
    ensures Band(a) == Band(b) ==> RttFactor(a) == RttFactor(b)
  {
  }

  lemma LoadFalls(a: int, b: int, most: int)
    requires most > 0
    ensures a <= b ==> a as real / most as real <= b as real / most as real
    ensures a < b ==> a as real / most as real < b as real / most as real
    ensures a < 2 * most <==> a as real / most as real < 2.0
    ensures a <= 2 * most <==> a as real / most as real <= 2.0
  {
    var x, y, m := a as real / most as real, b as real / most as real, most as real;
    assert x * m == a as real && y * m == b as real;
    Scaled(x, y, m);
    Scaled(x, 2.0, m);
  }

  lemma Scaled(x: real, y: real, m: real)
    requires m > 0.0
    ensures x < y <==> x * m < y * m
    ensures x <= y <==> x * m <= y * m
  {
    assert (y - x) * m == y * m - x * m;
    if x < y {
      assert (y - x) * m > 0.0;
    } else if x > y {
      assert (x - y) * m > 0.0;
      assert (x - y) * m == -((y - x) * m);
    }
  }

  function Product(x: real, y: real): (p: real)
    ensures x >= 0.0 && y >= 0.0 ==> p >= 0.0
    ensures x > 0.0 && y > 0.0 ==> p > 0.0
  {
    x * y
  }

  lemma ProductSplits(x: real, y: real, z: real)
    ensures Product(x, z) - Product(y, z) == Product(x - y, z)
    ensures Product(z, x) - Product(z, y) == Product(z, x - y)
  {
  }

  /** One more factor keeps the order, and what was strict stays so. */
  lemma Times(a: real, b: real, c: real, d: real)
    requires a >= b && a >= 0.0 && c >= d > 0.0
    ensures Product(a, c) >= Product(b, d) && Product(a, c) >= 0.0
    ensures a > b || (a > 0.0 && c > d) ==> Product(a, c) > Product(b, d)
    ensures a > 0.0 ==> Product(a, c) > 0.0
  {
    ProductSplits(a, b, d);
    ProductSplits(c, d, a);
    hide Product;
  }

  /** In each factor `a` is no lower, if in nothing it is behind. */
  lemma FactorsPrefer(me: Self, a: Candidate, rttA: Option<nat>, b: Candidate, rttB: Option<nat>)
    requires NoWorse(me, a, rttA, b, rttB)
    ensures BandwidthFactor(a) >= BandwidthFactor(b) > 0.0 && TierFactor(a) >= TierFactor(b) > 0.0
    ensures ClosenessFactor(me, a) >= ClosenessFactor(me, b) > 0.0 && Ipv6Factor(me, a) >= Ipv6Factor(me, b) > 0.0
    ensures Ahead(me, a, rttA, b, rttB)
        ==> || a.scoreHint > b.scoreHint
            || (a.maxChildren > 0 && a.currentChildren < b.currentChildren)
            || (HasRoom(a)
                && (BandwidthFactor(a) > BandwidthFactor(b) || TierFactor(a) > TierFactor(b)
                    || ClosenessFactor(me, a) > ClosenessFactor(me, b) || Ipv6Factor(me, a) > Ipv6Factor(me, b)
                    || Band(rttA) < Band(rttB)))
  {
    hide Band, HasRoom;
  }

  /** The local score, without the round-trip time. */
  lemma LocalPrefers(me: Self, a: Candidate, b: Candidate)
    requires LoadShare(a) >= LoadShare(b) && LoadShare(a) >= 0.0
    requires BandwidthFactor(a) >= BandwidthFactor(b) > 0.0 && TierFactor(a) >= TierFactor(b) > 0.0
    requires ClosenessFactor(me, a) >= ClosenessFactor(me, b) > 0.0 && Ipv6Factor(me, a) >= Ipv6Factor(me, b) > 0.0
    ensures LocalScore(me, a) >= LocalScore(me, b) && LocalScore(me, a) >= 0.0
    ensures LoadShare(a) > 0.0 ==> LocalScore(me, a) > 0.0
    ensures || LoadShare(a) > LoadShare(b)
            || (LoadShare(a) > 0.0
                && (BandwidthFactor(a) > BandwidthFactor(b) || TierFactor(a) > TierFactor(b)
                    || ClosenessFactor(me, a) > ClosenessFactor(me, b) || Ipv6Factor(me, a) > Ipv6Factor(me, b)))
        ==> LocalScore(me, a) > LocalScore(me, b)
  {
    hide LocalScore, LoadShare, BandwidthFactor, TierFactor, ClosenessFactor, Ipv6Factor, Product;
    LocalScoreIs(me, a);
    LocalScoreIs(me, b);
    var a1, b1 := Product(LoadShare(a), BandwidthFactor(a)), Product(LoadShare(b), BandwidthFactor(b));
    Times(LoadShare(a), LoadShare(b), BandwidthFactor(a), BandwidthFactor(b));
    var a2, b2 := Product(a1, TierFactor(a)), Product(b1, TierFactor(b));
    Times(a1, b1, TierFactor(a), TierFactor(b));
    var a3, b3 := Product(a2, ClosenessFactor(me, a)), Product(b2, ClosenessFactor(me, b));
    Times(a2, b2, ClosenessFactor(me, a), ClosenessFactor(me, b));
    Times(a3, b3, Ipv6Factor(me, a), Ipv6Factor(me, b));
  }

  lemma FinalScoreIs(me: Self, c: Candidate, rtt: Option<nat>)
    ensures FinalScore(me, c, rtt) == 0.007 * c.scoreHint + 0.3 * Product(LocalScore(me, c), RttFactor(rtt))
  {
    hide LocalScore, RttFactor;
    var l, f := LocalScore(me, c), RttFactor(rtt);
    assert l * f * 100.0 * 0.3 == 30.0 * (l * f);
  }

  /** A candidate that is behind in nothing does not score lower, one that is ahead in something scores higher. */
  lemma ScorePrefers(me: Self, a: Candidate, rttA: Option<nat>, b: Candidate, rttB: Option<nat>)
    requires NoWorse(me, a, rttA, b, rttB) && !Overloaded(a)
    ensures FinalScore(me, a, rttA) >= FinalScore(me, b, rttB)
    ensures Ahead(me, a, rttA, b, rttB) ==> FinalScore(me, a, rttA) > FinalScore(me, b, rttB)
  {
    hide FinalScore, LocalScore, RttFactor, Band, LoadShare, HasRoom, Overloaded, Ahead, Product;
    hide BandwidthFactor, TierFactor, ClosenessFactor, Ipv6Factor;
    FinalScoreIs(me, a, rttA);
    FinalScoreIs(me, b, rttB);
    FactorsPrefer(me, a, rttA, b, rttB);
    LoadOrder(a, b);
    LocalPrefers(me, a, b);
    RttFactorFalls(rttA, rttB);
    RttFactorFalls(rttB, rttA);
    Times(LocalScore(me, a), LocalScore(me, b), RttFactor(rttA), RttFactor(rttB));
  }

  lemma LoadOrder(a: Candidate, b: Candidate)
    requires a.maxChildren == b.maxChildren && (a.maxChildren > 0 ==> a.currentChildren <= b.currentChildren)
    ensures LoadShare(a) >= LoadShare(b)
    ensures LoadShare(a) > 0.0 <==> HasRoom(a)
    ensures LoadShare(a) >= 0.0 <==> !Overloaded(a)
    ensures a.maxChildren > 0 && a.currentChildren < b.currentChildren ==> LoadShare(a) > LoadShare(b)
  {
    if a.maxChildren > 0 {
      LoadFalls(a.currentChildren, b.currentChildren, a.maxChildren);
    }
  }

  // ----- what that means for a selection -----

  lemma ScoreIsFinal(me: Self, s: State, cs: seq<Candidate>, locks: nat -> Locks, now: Time, i: nat)
    requires i < |cs|
    ensures ScoreAt(me, s, cs, locks, now, i) == FinalScore(me, cs[i], KnownRtt(s, cs[i], locks(i), now))
  {
    hide FinalScore;
  }

  ghost predicate Beats(me: Self, s: State, cs: seq<Candidate>, locks: nat -> Locks, now: Time, i: nat, j: nat) {
    && i < |cs| && j < |cs| && Usable(s.guard, cs[i], locks(i)) && !Overloaded(cs[i])
    && var rttI, rttJ := KnownRtt(s, cs[i], locks(i), now), KnownRtt(s, cs[j], locks(j), now);
       NoWorse(me, cs[i], rttI, cs[j], rttJ) && (i < j || Ahead(me, cs[i], rttI, cs[j], rttJ))
  }

  /** Of any list, a candidate is never chosen if a usable one with room, or just full, is behind it in nothing
      and ahead in something, or comes first. */
  lemma BeatenIsNotChosen(me: Self, s: State, cs: seq<Candidate>, locks: nat -> Locks, now: Time, i: nat, j: nat)
    requires Beats(me, s, cs, locks, now, i, j)
    requires forall k | 0 <= k < |cs| && k != j :: cs[k].nodeId != cs[j].nodeId
    ensures Select(me, s, cs, locks, now).Some?
    ensures Select(me, s, cs, locks, now).value.nodeId != cs[j].nodeId
  {
    hide Select, FinalScore, ScoreAt, NoWorse, Ahead, KnownRtt, Usable;
    SelectIsBest(me, s, cs, locks, now);
    var k := SelectIsFirstBest(me, s, cs, locks, now);
    if k == j {
      ScoreIsFinal(me, s, cs, locks, now, i);
      ScoreIsFinal(me, s, cs, locks, now, j);
      ScorePrefers(me, cs[i], KnownRtt(s, cs[i], locks(i), now), cs[j], KnownRtt(s, cs[j], locks(j), now));
    }
  }

  /** Two candidates alike in all that counts but the round-trip time. */
  predicate Alike(a: Candidate, b: Candidate) {
    b == a.(nodeId := b.nodeId, url := b.url, ipv6Url := b.ipv6Url)
  }

  lemma FasterScores(me: Self, a: Candidate, rttA: Option<nat>, b: Candidate, rttB: Option<nat>)
    requires Alike(a, b) && Band(rttA) < Band(rttB)
    ensures FinalScore(me, a, rttA) > FinalScore(me, b, rttB) <==> HasRoom(a)
    ensures FinalScore(me, a, rttA) == FinalScore(me, b, rttB) <==> !HasRoom(a) && !Overloaded(a)
  {
    hide FinalScore, LocalScore, RttFactor, Band, LoadShare, HasRoom, Overloaded, Product;
    FinalScoreIs(me, a, rttA);
    FinalScoreIs(me, b, rttB);
    RttFactorFalls(rttA, rttB);
    LoadOrder(a, a);
    LocalSign(me, a);
    assert LocalScore(me, a) == LocalScore(me, b) by { AlikeLocally(me, a, b); }
    SignOfProduct(LocalScore(me, a), RttFactor(rttA) - RttFactor(rttB));
    ProductSplits(RttFactor(rttA), RttFactor(rttB), LocalScore(me, a));
  }

  lemma AlikeLocally(me: Self, a: Candidate, b: Candidate)
    requires Alike(a, b)
    ensures LocalScore(me, a) == LocalScore(me, b)
  {
  }

  lemma SignOfProduct(x: real, y: real)
    requires y > 0.0
    ensures Product(x, y) > 0.0 <==> x > 0.0
    ensures Product(x, y) == 0.0 <==> x == 0.0
  {
    Scaled(0.0, x, y);
  }

  lemma LocalSign(me: Self, c: Candidate)
    ensures LocalScore(me, c) > 0.0 <==> LoadShare(c) > 0.0
    ensures LocalScore(me, c) == 0.0 <==> LoadShare(c) == 0.0
  {
    hide LoadShare, LocalScore, Product;
    LocalScoreIs(me, c);
    var l1 := Product(LoadShare(c), BandwidthFactor(c));
    var l2 := Product(l1, TierFactor(c));
    SignOfProduct(LoadShare(c), BandwidthFactor(c));
    SignOfProduct(l1, TierFactor(c));
    SignOfProduct(l2, ClosenessFactor(me, c));
    SignOfProduct(Product(l2, ClosenessFactor(me, c)), Ipv6Factor(me, c));
  }

  /** Of two candidates alike, probed in different bands of round-trip time, the faster one is chosen exactly if
      they have room, or are just full and it comes first; an overloaded pair goes to the slower one. */
  lemma FasterIsChosen(me: Self, s: State, cs: seq<Candidate>, locks: nat -> Locks, now: Time, i: nat, j: nat)
    requires |cs| == 2 && i < 2 && j < 2 && i != j
    requires Alike(cs[i], cs[j]) && cs[i].nodeId != cs[j].nodeId
    requires Usable(s.guard, cs[i], locks(i)) && Usable(s.guard, cs[j], locks(j))
    requires Band(KnownRtt(s, cs[i], locks(i), now)) < Band(KnownRtt(s, cs[j], locks(j), now))
    ensures Select(me, s, cs, locks, now).Some?
    ensures Select(me, s, cs, locks, now).value.nodeId == cs[i].nodeId
       <==> HasRoom(cs[i]) || (!Overloaded(cs[i]) && i < j)
  {
    hide Select, FinalScore, ScoreAt, KnownRtt, Usable, Band;
    SelectIsBest(me, s, cs, locks, now);
    var k := SelectIsFirstBest(me, s, cs, locks, now);
    ScoreIsFinal(me, s, cs, locks, now, i);
    ScoreIsFinal(me, s, cs, locks, now, j);
    FasterScores(me, cs[i], KnownRtt(s, cs[i], locks(i), now), cs[j], KnownRtt(s, cs[j], locks(j), now));
    assert k == i || k == j;
  }

  // ----- what a selection never chooses -----

  /** With its lock free, the loop guard keeps out the agent itself and every tier at or below its depth bound. */
  lemma ChosenPassesGuard(me: Self, s: State, cs: seq<Candidate>, locks: nat -> Locks, now: Time)
    requires Select(me, s, cs, locks, now).Some?
    requires forall i: nat :: locks(i).guardFree
    ensures var p := Select(me, s, cs, locks, now).value;
            && p.nodeId != s.guard.nodeId && (p.tier < s.guard.maxDepth || p.tier < 0)
            && exists i | 0 <= i < |cs| :: cs[i].allowCascade && cs[i].nodeId == p.nodeId && cs[i].tier == p.tier
                                           && p.url == if me.hasIpv6 && cs[i].ipv6Url != "" then cs[i].ipv6Url else cs[i].url
  {
    hide Select, FinalScore;
    SelectIsBest(me, s, cs, locks, now);
    var i: nat :| ComesFrom(me, s, cs, locks, now, Select(me, s, cs, locks, now).value, i);
  }

  /** A negative cooldown, cast to 64 bits, holds for ever after the first switch; a negative limit is none. */
  lemma NegativePolicyFields(s: State, resp: MeshResponse, now: Time)
    requires resp.policy.Some? && s.lastSwitchAt.Some? && now - s.lastSwitchAt.value < 0x8000_0000_0000_0000
    requires -0x8000_0000 <= resp.policy.value.switchCooldownSec < 0x8000_0000
    ensures resp.policy.value.switchCooldownSec < 0 ==> CoolingDown(s, resp, now)
    ensures resp.policy.value.switchCooldownSec >= 0
        ==> (CoolingDown(s, resp, now)
             <==> now < s.lastSwitchAt.value + resp.policy.value.switchCooldownSec * SECOND)
    ensures -0x8000_0000 <= resp.policy.value.maxSwitchPer5Min < 0
        ==> AsU64(MaxSwitches(resp)) > 0x8000_0000_0000_0000
  {
  }
}
