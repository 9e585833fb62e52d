/** The agent's upstream selector: local choice, hysteresis, forced and emergency reselection. */
module CascadeSelector {
  import opened Options

  type NodeId = string

  type Time = int  // nanoseconds on the agent's monotone clock

  const SECOND := 1_000_000_000

  datatype Candidate = Candidate(nodeId: NodeId, url: string, region: string, isp: string, tier: int,
                                 scoreHint: real, maxChildren: int, currentChildren: int, bwRemainingMbps: real,
                                 allowCascade: bool, hasIpv6: bool, ipv6Url: string)

  datatype MeshPolicy = MeshPolicy(maxDepth: int, switchCooldownSec: int, minScoreImprovement: int,
                                   maxSwitchPer5Min: int)

  datatype Advice = Advice(shouldSwitch: bool, preferredNode: NodeId, reason: string)

  datatype MeshResponse = MeshResponse(selfNodeId: NodeId, selfTier: int, candidates: seq<Candidate>,
                                       policy: Option<MeshPolicy>, advice: Option<Advice>)

  datatype Path = Path(url: string, nodeId: NodeId, score: real, tier: int)

  datatype Probe = Probe(rtt: nat, probedAt: Time, reachable: bool)

  datatype LoopGuard = LoopGuard(nodeId: NodeId, chain: seq<NodeId>, maxDepth: int) {
    predicate WouldCreateLoop(upstream: NodeId, tier: int) {
      (tier >= 0 && tier >= maxDepth) || upstream == nodeId || nodeId in chain
    }
  }

  /** What never changes about an agent. */
  datatype Self = Self(nodeId: NodeId, region: string, isp: string, hasIpv6: bool)

  datatype State = State(path: Option<Path>, lastResponse: Option<MeshResponse>, guard: LoopGuard,
                         lastSwitchAt: Option<Time>, switchTimes: seq<Time>, selfTier: int,
                         probes: map<NodeId, Probe>, fails: nat)

  /** Whether the two try-locks of the selection loop succeed for a candidate. */
  datatype Locks = Locks(guardFree: bool, probesFree: bool)

  function InitialState(me: Self): State {
    State(None, None, LoopGuard(me.nodeId, [], 2), None, [], 2, map[], 0)
  }

  // ----- scoring -----

  function LocalScore(me: Self, c: Candidate): real {
    var score := 1.0;
    var score := if c.maxChildren > 0
                 then score * (0.5 + 0.5 * (1.0 - c.currentChildren as real / c.maxChildren as real)) else score;
    var score := if c.bwRemainingMbps < 4.0 then score * 0.7 else score;
    var score := if c.tier == 1 then score * 1.1 else score;
    var score := if c.region == me.region && c.isp == me.isp then score * 1.15
                 else if c.region == me.region then score * 1.05 else score;
    if me.hasIpv6 && c.hasIpv6 then score * 1.05 else score
  }

  function FreshRtt(probes: map<NodeId, Probe>, id: NodeId, now: Time): Option<nat> {
    if id in probes && now - probes[id].probedAt < 60 * SECOND then Some(probes[id].rtt) else None
  }

  function RttFactor(rtt: Option<nat>): real {
    if rtt == None then 1.0
    else if rtt.value < 10 then 1.2
    else if rtt.value < 50 then 1.1
    else if rtt.value > 200 then 0.7
    else if rtt.value > 100 then 0.85
    else 1.0
  }

  function FinalScore(me: Self, c: Candidate, rtt: Option<nat>): real {
    (c.scoreHint * 0.7 + LocalScore(me, c) * RttFactor(rtt) * 100.0 * 0.3) / 100.0
  }

  // ----- selection -----

  /** The loop guard is consulted only if its lock is free. */
  predicate Usable(guard: LoopGuard, c: Candidate, locks: Locks) {
    c.allowCascade && c.url != "" && !(locks.guardFree && guard.WouldCreateLoop(c.nodeId, c.tier))
  }

  function PathTo(me: Self, s: State, c: Candidate, locks: Locks, now: Time): Path {
    var rtt := if locks.probesFree then FreshRtt(s.probes, c.nodeId, now) else None;
    var url := if me.hasIpv6 && c.ipv6Url != "" then c.ipv6Url else c.url;
    Path(url, c.nodeId, FinalScore(me, c, rtt), c.tier)
  }

  function Scored(me: Self, s: State, cs: seq<Candidate>, locks: nat -> Locks, now: Time): seq<Path> {
    if cs == [] then []
    else
      var n := |cs| - 1;
      var front := Scored(me, s, cs[..n], locks, now);
      if Usable(s.guard, cs[n], locks(n)) then front + [PathTo(me, s, cs[n], locks(n), now)] else front
  }

  /** Stable insertion of one path into a list sorted by falling score. */
  function InsertByScore(sorted: seq<Path>, p: Path): (r: seq<Path>)
    ensures |r| == |sorted| + 1
  {
    if sorted == [] then [p]
    else if sorted[0].score >= p.score then [sorted[0]] + InsertByScore(sorted[1..], p)
    else [p] + sorted
  }

  function SortByScore(ps: seq<Path>): (r: seq<Path>)
    ensures |r| == |ps|
  {
    if ps == [] then [] else InsertByScore(SortByScore(ps[..|ps| - 1]), ps[|ps| - 1])
  }

  function Select(me: Self, s: State, cs: seq<Candidate>, locks: nat -> Locks, now: Time): Option<Path> {
    var scored := Scored(me, s, cs, locks, now);
    if scored == [] then None else Some(SortByScore(scored)[0])
  }

  /** The head of an insertion is the better of the new path and the old head. */
  lemma HeadOfInsert(sorted: seq<Path>, p: Path)
    ensures InsertByScore(sorted, p)[0]
         == if sorted != [] && sorted[0].score >= p.score then sorted[0] else p
  {
  }

  lemma {:induction false} HeadOfSorted(ps: seq<Path>) returns (best: nat)
    requires ps != []
    ensures best < |ps| && SortByScore(ps)[0] == ps[best]
    ensures forall k | 0 <= k < |ps| :: ps[k].score <= ps[best].score
  {
    hide InsertByScore;
    var n := |ps| - 1;
    HeadOfInsert(SortByScore(ps[..n]), ps[n]);
    best := n;
    if n > 0 {
      var b := HeadOfSorted(ps[..n]);
      assert ps[..n][b] == ps[b];
      if ps[b].score >= ps[n].score {
        best := b;
      }
      forall k | 0 <= k < |ps| ensures ps[k].score <= ps[best].score {
        if k < n {
          assert ps[..n][k] == ps[k];
        }
      }
    }
  }

  /** `i` is the position of a usable candidate that `p` was built from. */
  ghost predicate ComesFrom(me: Self, s: State, cs: seq<Candidate>, locks: nat -> Locks, now: Time, p: Path, i: nat) {
    i < |cs| && Usable(s.guard, cs[i], locks(i)) && p == PathTo(me, s, cs[i], locks(i), now)
  }

  lemma {:induction false} ScoredMember(me: Self, s: State, cs: seq<Candidate>, locks: nat -> Locks, now: Time, p: Path)
    ensures p in Scored(me, s, cs, locks, now) <==> exists i :: ComesFrom(me, s, cs, locks, now, p, i)
  {
    hide Usable, PathTo;
    if cs != [] {
      var n := |cs| - 1;
      ScoredMember(me, s, cs[..n], locks, now, p);
      if i: nat :| ComesFrom(me, s, cs[..n], locks, now, p, i) {
        assert ComesFrom(me, s, cs, locks, now, p, i);
      }
      if i: nat :| ComesFrom(me, s, cs, locks, now, p, i) && i < n {
        assert ComesFrom(me, s, cs[..n], locks, now, p, i);
      }
      if Usable(s.guard, cs[n], locks(n)) {
        assert ComesFrom(me, s, cs, locks, now, PathTo(me, s, cs[n], locks(n), now), n);
      }
    }
  }

  /** The choice is a usable candidate of the list, none usable scores higher, and it is refused only
      when there is no usable candidate at all. */
  lemma SelectIsBest(me: Self, s: State, cs: seq<Candidate>, locks: nat -> Locks, now: Time)
    ensures var r := Select(me, s, cs, locks, now);
            if r == None then forall i | 0 <= i < |cs| :: !Usable(s.guard, cs[i], locks(i))
            else
              && (exists i :: ComesFrom(me, s, cs, locks, now, r.value, i))
              && forall i | 0 <= i < |cs| && Usable(s.guard, cs[i], locks(i)) ::
                   PathTo(me, s, cs[i], locks(i), now).score <= r.value.score
  {
    hide Usable, PathTo;
    var scored, r := Scored(me, s, cs, locks, now), Select(me, s, cs, locks, now);
    if r != None {
      var best := HeadOfSorted(scored);
      ScoredMember(me, s, cs, locks, now, r.value);
    }
    forall i | 0 <= i < |cs| && Usable(s.guard, cs[i], locks(i))
      ensures PathTo(me, s, cs[i], locks(i), now) in scored
    {
      var p := PathTo(me, s, cs[i], locks(i), now);
      assert ComesFrom(me, s, cs, locks, now, p, i);
      ScoredMember(me, s, cs, locks, now, p);
    }
  }

  function ScoreAt(me: Self, s: State, cs: seq<Candidate>, locks: nat -> Locks, now: Time, i: nat): real
    requires i < |cs|
  {
    PathTo(me, s, cs[i], locks(i), now).score
  }

  /** The first of the usable candidates that no usable one scores above. */
  ghost predicate FirstBest(me: Self, s: State, cs: seq<Candidate>, locks: nat -> Locks, now: Time, i: nat) {
    && i < |cs| && Usable(s.guard, cs[i], locks(i))
    && forall j: nat | j < |cs| && Usable(s.guard, cs[j], locks(j)) ::
         && ScoreAt(me, s, cs, locks, now, j) <= ScoreAt(me, s, cs, locks, now, i)
         && (j < i ==> ScoreAt(me, s, cs, locks, now, j) < ScoreAt(me, s, cs, locks, now, i))
  }

  /** The sort is stable, so of several best candidates the first is chosen. */
  lemma {:induction false} SelectIsFirstBest(me: Self, s: State, cs: seq<Candidate>, locks: nat -> Locks, now: Time)
    returns (i: nat)
    requires Select(me, s, cs, locks, now).Some?
    ensures FirstBest(me, s, cs, locks, now, i)
    ensures Select(me, s, cs, locks, now) == Some(PathTo(me, s, cs[i], locks(i), now))
  {
    hide Usable, PathTo, InsertByScore;
    var n := |cs| - 1;
    var front := Scored(me, s, cs[..n], locks, now);
    var p := PathTo(me, s, cs[n], locks(n), now);
    NoneBefore(me, s, cs[..n], locks, now);
    if Usable(s.guard, cs[n], locks(n)) {
      assert (front + [p])[..|front|] == front;
      HeadOfInsert(SortByScore(front), p);
    }
    i := n;
    if front != [] {
      var f := SelectIsFirstBest(me, s, cs[..n], locks, now);
      if !Usable(s.guard, cs[n], locks(n)) || SortByScore(front)[0].score >= p.score {
        i := f;
      }
      forall j: nat | j < n && Usable(s.guard, cs[j], locks(j))
        ensures ScoreAt(me, s, cs, locks, now, j) == ScoreAt(me, s, cs[..n], locks, now, j)
        ensures ScoreAt(me, s, cs, locks, now, j) <= ScoreAt(me, s, cs[..n], locks, now, f)
      {
      }
    }
  }

  lemma {:induction false} NoneBefore(me: Self, s: State, cs: seq<Candidate>, locks: nat -> Locks, now: Time)
    ensures Scored(me, s, cs, locks, now) == [] <==> forall j: nat | j < |cs| :: !Usable(s.guard, cs[j], locks(j))
  {
    hide Usable, PathTo;
    if cs != [] {
      var n := |cs| - 1;
      NoneBefore(me, s, cs[..n], locks, now);
      assert forall j: nat | j < n :: cs[..n][j] == cs[j];
    }
  }

  lemma FirstBestIsUnique(me: Self, s: State, cs: seq<Candidate>, locks: nat -> Locks, now: Time, i: nat, j: nat)
    requires FirstBest(me, s, cs, locks, now, i) && FirstBest(me, s, cs, locks, now, j)
    ensures i == j
  {
    hide Usable, ScoreAt;
  }

  // ----- hysteresis and switching -----

  /** An `i32` policy field cast to an unsigned 64-bit integer. */
  function AsU64(n: int): int {
    if n < 0 then n + 0x1_0000_0000_0000_0000 else n
  }

  function Cooldown(resp: MeshResponse): int {
    if resp.policy.Some? then resp.policy.value.switchCooldownSec else 30
  }

  function MaxSwitches(resp: MeshResponse): int {
    if resp.policy.Some? then resp.policy.value.maxSwitchPer5Min else 3
  }

  function MinImprovement(resp: MeshResponse): real {
    if resp.policy.Some? then resp.policy.value.minScoreImprovement as real / 100.0 else 0.15
  }

  const WINDOW := 300 * SECOND

  function Retain(times: seq<Time>, cutoff: Time): seq<Time> {
    if times == [] then []
    else if times[0] > cutoff then [times[0]] + Retain(times[1..], cutoff)
    else Retain(times[1..], cutoff)
  }

  function Max(a: real, b: real): real {
    if a >= b then a else b
  }

  predicate CoolingDown(s: State, resp: MeshResponse, now: Time) {
    s.lastSwitchAt.Some? && now - s.lastSwitchAt.value < AsU64(Cooldown(resp)) * SECOND
  }

  /** The verdict, and the switch times left after the pruning that some branches do. */
  function CheckHysteresis(s: State, next: Option<Path>, resp: MeshResponse, now: Time): (bool, seq<Time>) {
    match (s.path, next)
    case (None, None) => (false, s.switchTimes)
    case (None, Some(_)) => (true, s.switchTimes)
    case (Some(_), None) => (true, s.switchTimes)
    case (Some(cur), Some(best)) =>
      if cur.nodeId == best.nodeId || CoolingDown(s, resp, now) then (false, s.switchTimes)
      else
        var times := Retain(s.switchTimes, now - WINDOW);
        var enough := (best.score - cur.score) / Max(cur.score, 0.01) >= MinImprovement(resp);
        (|times| < AsU64(MaxSwitches(resp)) && enough, times)
  }

  function Switched(s: State, next: Option<Path>, now: Time): State {
    s.(path := next, lastSwitchAt := Some(now), switchTimes := s.switchTimes + [now])
  }

  function ForcedReselect(me: Self, s: State, resp: MeshResponse, locks: nat -> Locks, now: Time): State {
    Switched(s, Select(me, s, resp.candidates, locks, now), now)
  }

  predicate OfflineAdvice(resp: MeshResponse) {
    resp.advice.Some? && resp.advice.value.shouldSwitch && resp.advice.value.reason == "upstream_offline"
  }

  /** The tier and depth bound taken over from a response before anything is selected. */
  function Informed(s: State, resp: MeshResponse): State {
    s.(selfTier := resp.selfTier,
       guard := s.guard.(maxDepth := if resp.policy.Some? then resp.policy.value.maxDepth else resp.selfTier))
  }

  function Updated(me: Self, s: State, resp: MeshResponse, locks: nat -> Locks, now: Time): State {
    var s1 := Informed(s, resp);
    if OfflineAdvice(resp) then ForcedReselect(me, s1, resp, locks, now).(lastResponse := Some(resp))
    else
      var next := Select(me, s1, resp.candidates, locks, now);
      var (approved, times) := CheckHysteresis(s1, next, resp, now);
      var s2 := s1.(switchTimes := times);
      (if approved then Switched(s2, next, now) else s2).(lastResponse := Some(resp))
  }

  /** Without a response to choose from the agent falls back to the origin, and records no switch. */
  function Emergency(me: Self, s: State, locks: nat -> Locks, now: Time): State {
    (if s.lastResponse.Some? then ForcedReselect(me, s, s.lastResponse.value, locks, now)
     else s.(path := None)).(fails := 0)
  }

  /** An emergency switch does not exclude the upstream that failed: it stays exactly when that upstream is
      the first best usable candidate of the last response. */
  lemma EmergencyStays(me: Self, s: State, locks: nat -> Locks, now: Time)
    requires s.path.Some?
    ensures var path := Emergency(me, s, locks, now).path;
            path.Some? && path.value.nodeId == s.path.value.nodeId
            <==> s.lastResponse.Some?
                 && exists i: nat | i < |s.lastResponse.value.candidates| ::
                      && FirstBest(me, s, s.lastResponse.value.candidates, locks, now, i)
                      && s.lastResponse.value.candidates[i].nodeId == s.path.value.nodeId
  {
    hide Select, FirstBest, Usable;
    if s.lastResponse.Some? {
      var cs := s.lastResponse.value.candidates;
      if Select(me, s, cs, locks, now).Some? {
        var i := SelectIsFirstBest(me, s, cs, locks, now);
        assert i < |cs| by { BestInRange(me, s, cs, locks, now, i); }
        forall j: nat | FirstBest(me, s, cs, locks, now, j) ensures j == i {
          FirstBestIsUnique(me, s, cs, locks, now, i, j);
        }
      } else {
        NothingIsBest(me, s, cs, locks, now);
      }
    }
  }

  lemma BestInRange(me: Self, s: State, cs: seq<Candidate>, locks: nat -> Locks, now: Time, i: nat)
    requires FirstBest(me, s, cs, locks, now, i)
    ensures i < |cs|
  {
  }

  lemma NothingIsBest(me: Self, s: State, cs: seq<Candidate>, locks: nat -> Locks, now: Time)
    requires Select(me, s, cs, locks, now).None?
    ensures forall i: nat :: !FirstBest(me, s, cs, locks, now, i)
  {
    hide Select, Usable, PathTo;
    SelectIsBest(me, s, cs, locks, now);
  }

  function UpstreamFailed(me: Self, s: State, locks: nat -> Locks, now: Time): State {
    var s1 := s.(fails := s.fails + 1);
    if s1.fails >= 3 then Emergency(me, s1, locks, now) else s1
  }

  function PingResults(probes: map<NodeId, Probe>, cs: seq<Candidate>, rtts: nat -> nat, now: Time): map<NodeId, Probe> {
    if cs == [] then probes
    else
      var n := |cs| - 1;
      var front := PingResults(probes, cs[..n], rtts, now);
      if !cs[n].allowCascade || cs[n].url == "" then front
      else front[cs[n].nodeId := Probe(rtts(n), now, rtts(n) < 9999)]
  }

  predicate UpstreamUnreachable(s: State, now: Time) {
    && s.path.Some?
    && s.path.value.nodeId in s.probes
    && var probe := s.probes[s.path.value.nodeId];
       now - probe.probedAt < 30 * SECOND && !probe.reachable
  }

  function Pinged(me: Self, s: State, rtts: nat -> nat, locks: nat -> Locks, now: Time): State {
    if s.lastResponse == None then s
    else
      var s1 := s.(probes := PingResults(s.probes, s.lastResponse.value.candidates, rtts, now));
      if UpstreamUnreachable(s1, now) then Emergency(me, s1, locks, now) else s1
  }

  class CascadeSelector {
    const me: Self
    var currentPath: Option<Path>
    var lastMeshResponse: Option<MeshResponse>
    var loopGuard: LoopGuard
    var lastSwitchAt: Option<Time>
    var switchCount5Min: seq<Time>
    var selfTier: int
    var probeResults: map<NodeId, Probe>
    var upstreamConsecutiveFails: nat

    ghost function View(): State
      reads this
    {
      State(currentPath, lastMeshResponse, loopGuard, lastSwitchAt, switchCount5Min, selfTier, probeResults,
            upstreamConsecutiveFails)
    }

    constructor (me: Self)
      ensures this.me == me && View() == InitialState(me)
    {
      this.me := me;
      currentPath, lastMeshResponse := None, None;
      loopGuard := LoopGuard(me.nodeId, [], 2);
      lastSwitchAt, switchCount5Min := None, [];
      selfTier, probeResults, upstreamConsecutiveFails := 2, map[], 0;
    }

    method UpdateMeshMap(resp: MeshResponse, locks: nat -> Locks, now: Time)
      modifies this
      ensures View() == Updated(me, old(View()), resp, locks, now)
    {
      hide CheckHysteresis, Select;
      selfTier := resp.selfTier;
      loopGuard := loopGuard.(maxDepth := resp.selfTier);
      if resp.policy.Some? {
        loopGuard := loopGuard.(maxDepth := resp.policy.value.maxDepth);
      }
      if resp.advice.Some? {
        if resp.advice.value.shouldSwitch && resp.advice.value.reason == "upstream_offline" {
          ForceReselect(resp, locks, now);
          lastMeshResponse := Some(resp);
          return;
        }
      }
      var newPath := SelectFromCandidates(resp.candidates, locks, now);
      var shouldSwitch := CheckSwitch(newPath, resp, now);
      if shouldSwitch {
        ApplyPathSwitch(newPath, now);
      }
      lastMeshResponse := Some(resp);
    }

    method SelectFromCandidates(candidates: seq<Candidate>, locks: nat -> Locks, now: Time) returns (r: Option<Path>)
      ensures r == Select(me, View(), candidates, locks, now)
    {
      hide FinalScore, LocalScore;
      if candidates == [] {
        return None;
      }
      var scored: seq<Path> := [];
      for i := 0 to |candidates|
        invariant scored == Scored(me, View(), candidates[..i], locks, now)
      {
        var c := candidates[i];
        assert candidates[..i + 1][..i] == candidates[..i];
        if !c.allowCascade {
          continue;
        }
        if c.url == "" {
          continue;
        }
        if locks(i).guardFree {
          if loopGuard.WouldCreateLoop(c.nodeId, c.tier) {
            continue;
          }
        }
        var rtt := if locks(i).probesFree then FreshRtt(probeResults, c.nodeId, now) else None;
        var finalScore := FinalScore(me, c, rtt);
        var url := c.url;
        if me.hasIpv6 && c.ipv6Url != "" {
          url := c.ipv6Url;
        }
        scored := scored + [Path(url, c.nodeId, finalScore, c.tier)];
      }
      assert candidates[..|candidates|] == candidates;
      if scored == [] {
        return None;
      }
      scored := SortByScore(scored);
      return Some(scored[0]);
    }

    /** The hysteresis check; it prunes the switch times as it counts them. */
    method CheckSwitch(newPath: Option<Path>, resp: MeshResponse, now: Time) returns (ok: bool)
      modifies this`switchCount5Min
      ensures (ok, switchCount5Min) == CheckHysteresis(old(View()), newPath, resp, now)
    {
      match (currentPath, newPath) {
        case (None, None) =>
          return false;
        case (None, Some(_)) =>
          return true;
        case (Some(_), None) =>
          return true;
        case (Some(cur), Some(best)) =>
          if cur.nodeId == best.nodeId {
            return false;
          }
          if lastSwitchAt.Some? {
            if now - lastSwitchAt.value < AsU64(Cooldown(resp)) * SECOND {
              return false;
            }
          }
          switchCount5Min := Retain(switchCount5Min, now - WINDOW);
          if |switchCount5Min| >= AsU64(MaxSwitches(resp)) {
            return false;
          }
          var improvement := (best.score - cur.score) / Max(cur.score, 0.01);
          if improvement < MinImprovement(resp) {
            return false;
          }
          return true;
      }
    }

    method ForceReselect(resp: MeshResponse, locks: nat -> Locks, now: Time)
      modifies this
      ensures View() == ForcedReselect(me, old(View()), resp, locks, now)
    {
      hide Select;
      var newPath := SelectFromCandidates(resp.candidates, locks, now);
      ApplyPathSwitch(newPath, now);
    }

    method ApplyPathSwitch(newPath: Option<Path>, now: Time)
      modifies this
      ensures View() == Switched(old(View()), newPath, now)
    {
      currentPath := newPath;
      lastSwitchAt := Some(now);
      switchCount5Min := switchCount5Min + [now];
    }

    method ReportUpstreamOk()
      modifies this
      ensures View() == old(View()).(fails := 0)
    {
      upstreamConsecutiveFails := 0;
    }

    method ReportUpstreamFail(locks: nat -> Locks, now: Time)
      modifies this
      ensures View() == UpstreamFailed(me, old(View()), locks, now)
    {
      hide Select;
      upstreamConsecutiveFails := upstreamConsecutiveFails + 1;
      if upstreamConsecutiveFails >= 3 {
        EmergencySwitch(locks, now);
      }
    }

    method EmergencySwitch(locks: nat -> Locks, now: Time)
      modifies this
      ensures View() == Emergency(me, old(View()), locks, now)
    {
      hide Select;
      if lastMeshResponse.Some? {
        ForceReselect(lastMeshResponse.value, locks, now);
      } else {
        currentPath := None;
      }
      upstreamConsecutiveFails := 0;
    }

    method RunMeshPing(rtts: nat -> nat, locks: nat -> Locks, now: Time)
      modifies this
      ensures View() == Pinged(me, old(View()), rtts, locks, now)
    {
      hide Select;
      if lastMeshResponse == None {
        return;
      }
      var candidates := lastMeshResponse.value.candidates;
      for i := 0 to |candidates|
        invariant View() == old(View()).(probes := PingResults(old(probeResults), candidates[..i], rtts, now))
      {
        assert candidates[..i + 1][..i] == candidates[..i];
        if !candidates[i].allowCascade || candidates[i].url == "" {
          continue;
        }
        var rtt := rtts(i);
        probeResults := probeResults[candidates[i].nodeId := Probe(rtt, now, rtt < 9999)];
      }
      assert candidates[..|candidates|] == candidates;
      if currentPath.Some? {
        if currentPath.value.nodeId in probeResults {
          var probe := probeResults[currentPath.value.nodeId];
          if now - probe.probedAt < 30 * SECOND && !probe.reachable {
            EmergencySwitch(locks, now);
          }
        }
      }
    }
  }
}
