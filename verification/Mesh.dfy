/** The controller's side of the mesh: tiers, candidate lists, scores and migration advice. */
module Mesh {
  import opened Options
  import opened CascadeSelector
  import opened NodeStore

  /** Tier 1 pulls from the origin and may be pulled from; every other node is tier 2. */
  function TierOf(cascadeEnabled: bool, cascadeUpstream: bool): int {
    if cascadeEnabled && !cascadeUpstream then 1 else 2
  }

  function ComputeTier(n: NodeInfo): int {
    TierOf(n.cascadeEnabled, n.cascadeUpstream)
  }

  const DEFAULT_POLICY := MeshPolicy(2, 30, 15, 3)

  // ----- scores -----

  function Locality(n: NodeInfo, region: string, isp: string): real {
    if n.region == region && n.isp == isp then 1.0 else if n.region == region then 0.6 else 0.2
  }

  function Capacity(n: NodeInfo): real {
    if n.bwLimit > 0 then
      (1.0 - n.bwUsed as real / n.bwLimit as real) * 0.6 + (if n.childrenCount > 0 then 0.5 else 1.0) * 0.4
    else 0.5
  }

  function Stability(n: NodeInfo): real {
    if n.lossRate > 0.05 then 0.3 else if n.lossRate > 0.01 then 0.6 else 0.8
  }

  function Topology(n: NodeInfo, region: string, isp: string): real {
    var t := (if n.cascadeEnabled && !n.cascadeUpstream then 0.3 else 0.0)
             + (if n.region == region && n.isp == isp then 0.5 else if n.region == region then 0.2 else 0.0)
             + (if n.hasIpv6 then 0.1 else 0.0);
    if t > 1.0 then 1.0 else t
  }

  function MeshNodeScore(n: NodeInfo, region: string, isp: string): (score: real)
    ensures score <= 1.0
  {
    var score := 0.25 * Locality(n, region, isp) + 0.20 * (if n.isp == isp then 1.0 else 0.4)
                 + 0.15 * Capacity(n) + 0.15 * Stability(n) + 0.10 * (if n.hasIpv6 then 1.0 else 0.0)
                 + 0.15 * Topology(n, region, isp);
    if score > 1.0 then 1.0 else score
  }

  // ----- candidates -----

  function CascadeBandwidthLeft(n: NodeInfo): real {
    if n.bwLimit > 0 then n.bwLimit as real * 0.30 / 125000.0 - n.cascadeEgressBW as real / 125000.0 else 9.0
  }

  /** Rounded to two decimals, halves up; only ever applied to values of at least 4. */
  function Round2(x: real): real {
    (x * 100.0 + 0.5).Floor as real / 100.0
  }

  function BuildCandidate(n: NodeInfo, tier: int, requester: NodeInfo): Option<Candidate> {
    var load := if n.bwLimit > 0 then n.bwUsed as real / n.bwLimit as real else 0.0;
    var left := CascadeBandwidthLeft(n);
    if load > 0.70 || left < 2.0 || (left / 4.0).Floor < 1 then None
    else
      Some(Candidate(n.nodeId, n.cascadeUrl, n.region, n.isp, tier,
                     MeshNodeScore(n, requester.region, requester.isp) * 100.0,
                     (left / 4.0).Floor, n.childrenCount, Round2(left), true, n.hasIpv6, n.ipv6Url))
  }

  /** What the filter makes of one healthy node. */
  function Offer(n: NodeInfo, requesterId: NodeId, requester: NodeInfo): Option<Candidate> {
    if n.nodeId == requesterId || !n.cascadeEnabled || ComputeTier(n) >= ComputeTier(requester) then None
    else BuildCandidate(n, ComputeTier(n), requester)
  }

  function Offers(healthy: seq<NodeInfo>, requesterId: NodeId, requester: NodeInfo): seq<Candidate> {
    if healthy == [] then []
    else
      var front := Offers(healthy[..|healthy| - 1], requesterId, requester);
      var offer := Offer(healthy[|healthy| - 1], requesterId, requester);
      if offer.Some? then front + [offer.value] else front
  }

  function CheckMigrationAdvice(nodes: Nodes, requester: NodeInfo, candidates: seq<Candidate>): Option<Advice> {
    if requester.currentUpstream == "" then None
    else if requester.currentUpstream !in nodes then Some(Advice(true, "", "upstream_offline"))
    else
      var upstream := nodes[requester.currentUpstream];
      if upstream.bwLimit > 0 && upstream.bwUsed as real / upstream.bwLimit as real > 0.8 && candidates != [] then
        Some(Advice(true, candidates[0].nodeId, "parent_overloaded"))
      else None
  }

  // ----- sorting and truncation -----

  ghost predicate SortedByHint(cs: seq<Candidate>) {
    forall i, j | 0 <= i < j < |cs| :: cs[i].scoreHint >= cs[j].scoreHint
  }

  /** Some arrangement of `cs` by falling hint; the original's sort promises no order among equals. */
  ghost predicate IsSorting(r: seq<Candidate>, cs: seq<Candidate>) {
    SortedByHint(r) && multiset(r) == multiset(cs)
  }

  function InsertByHint(sorted: seq<Candidate>, c: Candidate): (r: seq<Candidate>)
    ensures multiset(r) == multiset(sorted) + multiset{c}
  {
    if sorted == [] then [c]
    else if sorted[0].scoreHint >= c.scoreHint then
      var r := InsertByHint(sorted[1..], c);
      assert sorted == [sorted[0]] + sorted[1..];
      [sorted[0]] + r
    else [c] + sorted
  }

  function SortByHint(cs: seq<Candidate>): (r: seq<Candidate>)
    ensures multiset(r) == multiset(cs)
  {
    if cs == [] then []
    else
      assert cs == cs[..|cs| - 1] + [cs[|cs| - 1]];
      InsertByHint(SortByHint(cs[..|cs| - 1]), cs[|cs| - 1])
  }

  lemma {:induction false} InsertKeepsSorted(sorted: seq<Candidate>, c: Candidate)
    requires SortedByHint(sorted)
    ensures SortedByHint(InsertByHint(sorted, c))
  {
    if sorted != [] && sorted[0].scoreHint >= c.scoreHint {
      InsertKeepsSorted(sorted[1..], c);
      var r := InsertByHint(sorted[1..], c);
      forall x | x in r ensures sorted[0].scoreHint >= x.scoreHint {
        assert x in multiset(r);
        assert x in multiset(sorted[1..]) || x == c;
      }
    }
  }

  lemma {:induction false} SortSorts(cs: seq<Candidate>)
    ensures IsSorting(SortByHint(cs), cs)
  {
    if cs != [] {
      SortSorts(cs[..|cs| - 1]);
      InsertKeepsSorted(SortByHint(cs[..|cs| - 1]), cs[|cs| - 1]);
    }
  }

  function FirstThree(cs: seq<Candidate>): seq<Candidate> {
    if |cs| > 3 then cs[..3] else cs
  }

  /** `top` heads some sorting of `all`. */
  ghost predicate TopThree(top: seq<Candidate>, all: seq<Candidate>) {
    exists sorted :: IsSorting(sorted, all) && top == FirstThree(sorted)
  }

  /** What the list keeps comes from the offers, best first; what it leaves out beats nothing kept. */
  lemma TopThreeIsBest(top: seq<Candidate>, all: seq<Candidate>)
    requires TopThree(top, all)
    ensures |top| == if |all| > 3 then 3 else |all|
    ensures SortedByHint(top)
    ensures forall c | c in top :: c in all
    ensures forall c, k | c in all && c !in top && 0 <= k < |top| :: c.scoreHint <= top[k].scoreHint
  {
    var sorted :| IsSorting(sorted, all) && top == FirstThree(sorted);
    assert |sorted| == |multiset(sorted)| == |all|;
    forall c | c in top ensures c in all {
      assert c in multiset(sorted);
    }
    forall c, k | c in all && c !in top && 0 <= k < |top| ensures c.scoreHint <= top[k].scoreHint {
      assert c in multiset(all);
      var j :| 0 <= j < |sorted| && sorted[j] == c;
    }
  }

  // ----- the response -----

  /** What the controller may answer, given the healthy nodes in some order. */
  ghost predicate IsResponse(nodes: Nodes, healthy: seq<NodeInfo>, id: NodeId, resp: MeshResponse) {
    && id in nodes
    && resp.selfNodeId == id
    && resp.selfTier == ComputeTier(nodes[id])
    && TopThree(resp.candidates, Offers(healthy, id, nodes[id]))
    && resp.policy == Some(DEFAULT_POLICY)
    && resp.advice == CheckMigrationAdvice(nodes, nodes[id], resp.candidates)
  }

  method BuildMeshMapResponse(nodes: Nodes, healthy: seq<NodeInfo>, requesterId: NodeId)
    returns (r: Option<MeshResponse>)
    ensures r == None <==> requesterId !in nodes
    ensures r.Some? ==> IsResponse(nodes, healthy, requesterId, r.value)
  {
    hide BuildCandidate, CheckMigrationAdvice, SortByHint;
    if requesterId !in nodes {
      return None;
    }
    var requester := nodes[requesterId];
    var selfTier := ComputeTier(requester);
    var candidates: seq<Candidate> := [];
    for i := 0 to |healthy|
      invariant candidates == Offers(healthy[..i], requesterId, requester)
    {
      assert healthy[..i + 1][..i] == healthy[..i];
      var n := healthy[i];
      if n.nodeId == requesterId {
        continue;
      }
      if !n.cascadeEnabled {
        continue;
      }
      var upstreamTier := ComputeTier(n);
      if upstreamTier >= selfTier {
        continue;
      }
      var candidate := BuildCandidate(n, upstreamTier, requester);
      if candidate.Some? {
        candidates := candidates + [candidate.value];
      }
    }
    assert healthy[..|healthy|] == healthy;
    SortSorts(candidates);
    candidates := SortByHint(candidates);
    if |candidates| > 3 {
      candidates := candidates[..3];
    }
    var migration := CheckMigrationAdvice(nodes, requester, candidates);
    assert TopThree(candidates, Offers(healthy, requesterId, requester));
    return Some(MeshResponse(requesterId, selfTier, candidates, Some(DEFAULT_POLICY), migration));
  }

  // ----- what every response guarantees -----

  lemma {:induction false} OfferedFrom(healthy: seq<NodeInfo>, id: NodeId, requester: NodeInfo, c: Candidate)
    requires c in Offers(healthy, id, requester)
    ensures exists n :: n in healthy && Offer(n, id, requester) == Some(c)
  {
    hide Offer;
    var front := healthy[..|healthy| - 1];
    if c in Offers(front, id, requester) {
      OfferedFrom(front, id, requester, c);
    } else {
      assert healthy[|healthy| - 1] in healthy;
    }
  }

  /** Every candidate is another healthy cascade node of a strictly lower tier, offered with its own
      tier and a hint of at most 100. */
  lemma CandidatesAreLower(nodes: Nodes, healthy: seq<NodeInfo>, id: NodeId, resp: MeshResponse, c: Candidate)
    requires IsResponse(nodes, healthy, id, resp) && c in resp.candidates
    ensures exists n :: n in healthy && n.nodeId == c.nodeId && n.cascadeEnabled
                        && c.tier == ComputeTier(n) < ComputeTier(nodes[id])
    ensures c.nodeId != id && c.allowCascade && c.scoreHint <= 100.0 && c.maxChildren > 0
  {
    hide MeshNodeScore, CascadeBandwidthLeft;
    TopThreeIsBest(resp.candidates, Offers(healthy, id, nodes[id]));
    OfferedFrom(healthy, id, nodes[id], c);
  }

  /** The advice is told by the registry: the reported upstream is gone, or it uses more than 80% of its
      bandwidth and there is another candidate, the first of which is then preferred. */
  lemma AdviceIsExact(nodes: Nodes, healthy: seq<NodeInfo>, id: NodeId, resp: MeshResponse)
    requires IsResponse(nodes, healthy, id, resp)
    ensures var up, a := nodes[id].currentUpstream, resp.advice;
            && (a == Some(Advice(true, "", "upstream_offline")) <==> up != "" && up !in nodes)
            && (a.Some? && a.value.reason == "parent_overloaded"
                <==> && up != "" && up in nodes && resp.candidates != []
                     && nodes[up].bwLimit > 0 && 10 * nodes[up].bwUsed > 8 * nodes[up].bwLimit)
            && (a.Some? ==>
                  || a.value == Advice(true, "", "upstream_offline")
                  || (resp.candidates != []
                      && a.value == Advice(true, resp.candidates[0].nodeId, "parent_overloaded")))
  {
    hide Offers, TopThree;
    var up := nodes[id].currentUpstream;
    if up in nodes && nodes[up].bwLimit > 0 {
      RatioExceeds(nodes[up].bwUsed, nodes[up].bwLimit, 8);
    }
  }

  /** So the agent is told to leave at once exactly when the upstream it reported is not registered. */
  lemma OfflineExactly(nodes: Nodes, healthy: seq<NodeInfo>, id: NodeId, resp: MeshResponse)
    requires IsResponse(nodes, healthy, id, resp)
    ensures OfflineAdvice(resp) <==> nodes[id].currentUpstream != "" && nodes[id].currentUpstream !in nodes
  {
    hide IsResponse;
    RequesterIsKnown(nodes, healthy, id, resp);
    AdviceIsExact(nodes, healthy, id, resp);
    assert "parent_overloaded"[0] != "upstream_offline"[0];
  }

  lemma RequesterIsKnown(nodes: Nodes, healthy: seq<NodeInfo>, id: NodeId, resp: MeshResponse)
    requires IsResponse(nodes, healthy, id, resp)
    ensures id in nodes
  {
  }

  // ----- when a node is offered, and how it is rated -----

  /** A node is offered exactly if it is another one on tier 1, to a node on tier 2, uses at most 70% of its
      bandwidth, and has left, of the 30% set aside for the cascade, 4 Mbps (500,000 bytes a second). */
  lemma OfferedExactly(n: NodeInfo, id: NodeId, requester: NodeInfo)
    ensures Offer(n, id, requester).Some?
       <==> && n.nodeId != id
            && n.cascadeEnabled && !n.cascadeUpstream
            && !(requester.cascadeEnabled && !requester.cascadeUpstream)
            && (n.bwLimit > 0 ==> 10 * n.bwUsed <= 7 * n.bwLimit
                                  && 3 * n.bwLimit - 10 * n.cascadeEgressBW >= 5_000_000)
  {
    if n.bwLimit > 0 {
      RatioExceeds(n.bwUsed, n.bwLimit, 7);
    }
  }

  /** An offer carries the node's address and load as registered, a rating of the node, and as many children as
      the bandwidth left allows at 4 Mbps each; the bandwidth is rounded to a hundredth. */
  lemma OfferedAs(n: NodeInfo, id: NodeId, requester: NodeInfo)
    requires Offer(n, id, requester).Some?
    ensures var c := Offer(n, id, requester).value;
            var left := if n.bwLimit > 0 then (0.3 * n.bwLimit as real - n.cascadeEgressBW as real) / 125000.0 else 9.0;
            && c.nodeId == n.nodeId && c.url == n.cascadeUrl && c.ipv6Url == n.ipv6Url && c.hasIpv6 == n.hasIpv6
            && c.region == n.region && c.isp == n.isp && c.tier == 1 && c.allowCascade
            && c.currentChildren == n.childrenCount
            && 4.0 * c.maxChildren as real <= left < 4.0 * c.maxChildren as real + 4.0
            && -0.005 <= c.bwRemainingMbps - left <= 0.005
            && c.scoreHint == 100.0 * MeshNodeScore(n, requester.region, requester.isp)
  {
    hide MeshNodeScore;
    assert CascadeBandwidthLeft(n)
        == if n.bwLimit > 0 then (0.3 * n.bwLimit as real - n.cascadeEgressBW as real) / 125000.0 else 9.0;
  }

  /** Two nodes alike but for one thing that the rating weighs. */
  predicate NodesAlike(a: NodeInfo, b: NodeInfo) {
    && a.region == b.region && a.isp == b.isp && a.hasIpv6 == b.hasIpv6
    && a.bwLimit == b.bwLimit && a.bwUsed == b.bwUsed && a.childrenCount == b.childrenCount && a.lossRate == b.lossRate
    && a.cascadeEnabled == b.cascadeEnabled && a.cascadeUpstream == b.cascadeUpstream
  }

  function LossClass(n: NodeInfo): nat {
    if n.lossRate <= 0.01 then 0 else if n.lossRate <= 0.05 then 1 else 2
  }

  /** Whatever is better raises the rating, which is never cut off at 1: being in the requester's region, having
      its provider, IPv6, less loss by class, no children rather than some, less used bandwidth. */
  lemma RatingPrefers(a: NodeInfo, b: NodeInfo, region: string, isp: string)
    requires a.bwUsed >= 0 && b.bwUsed >= 0
    requires || (NodesAlike(a, b.(region := a.region)) && a.region == region != b.region)
             || (NodesAlike(a, b.(isp := a.isp)) && a.isp == isp != b.isp)
             || (NodesAlike(a, b.(hasIpv6 := a.hasIpv6)) && a.hasIpv6 && !b.hasIpv6)
             || (NodesAlike(a, b.(lossRate := a.lossRate)) && LossClass(a) < LossClass(b))
             || (NodesAlike(a, b.(childrenCount := a.childrenCount)) && a.bwLimit > 0 && a.childrenCount <= 0 < b.childrenCount)
             || (NodesAlike(a, b.(bwUsed := a.bwUsed)) && a.bwLimit > 0 && a.bwUsed < b.bwUsed)
    ensures MeshNodeScore(a, region, isp) > MeshNodeScore(b, region, isp)
  {
    hide MeshNodeScore, Topology, Locality, Capacity, Stability;
    Uncapped(a, region, isp);
    Uncapped(b, region, isp);
    PlaceTerms(a, b, region, isp);
    CapacityTerms(a, b);
    assert LossClass(a) < LossClass(b) ==> Stability(a) > Stability(b) by { LossTerms(a, b); }
    assert a.lossRate == b.lossRate ==> Stability(a) == Stability(b) by { LossTerms(a, b); }
  }

  /** The hints of healthy nodes lie between 32.2 and 95.5, far from the scale's ends at 0 and 100. */
  lemma HintRange(n: NodeInfo, id: NodeId, requester: NodeInfo, now: Time)
    requires IsHealthy(n, now) && n.bwUsed >= 0 && Offer(n, id, requester).Some?
    ensures 32.2 <= Offer(n, id, requester).value.scoreHint <= 95.5
  {
    hide MeshNodeScore, Capacity;
    OfferedExactly(n, id, requester);
    OfferedAs(n, id, requester);
    Uncapped(n, requester.region, requester.isp);
    assert 0.38 <= Capacity(n) <= 1.0 by { CapacityRange(n); }
    assert 0.6 <= Stability(n) <= 0.8;
    assert 0.3 <= Topology(n, requester.region, requester.isp) <= 0.9;
  }

  lemma CapacityRange(n: NodeInfo)
    requires n.bwUsed >= 0 && (n.bwLimit > 0 ==> 10 * n.bwUsed <= 7 * n.bwLimit)
    ensures 0.38 <= Capacity(n) <= 1.0
  {
    if n.bwLimit > 0 {
      RatioExceeds(n.bwUsed, n.bwLimit, 7);
      assert n.bwUsed as real / n.bwLimit as real >= 0.0;
    }
  }

  lemma Uncapped(n: NodeInfo, region: string, isp: string)
    requires n.bwUsed >= 0
    ensures MeshNodeScore(n, region, isp)
         == 0.25 * Locality(n, region, isp) + 0.20 * (if n.isp == isp then 1.0 else 0.4)
            + 0.15 * Capacity(n) + 0.15 * Stability(n) + 0.10 * (if n.hasIpv6 then 1.0 else 0.0)
            + 0.15 * Topology(n, region, isp)
  {
    if n.bwLimit > 0 {
      assert n.bwUsed as real / n.bwLimit as real >= 0.0;
    }
    assert Capacity(n) <= 1.0 && Topology(n, region, isp) <= 0.9;
  }

  lemma PlaceTerms(a: NodeInfo, b: NodeInfo, region: string, isp: string)
    requires a.cascadeEnabled == b.cascadeEnabled && a.cascadeUpstream == b.cascadeUpstream
    requires a.hasIpv6 || !b.hasIpv6
    requires a.region == b.region || a.region == region
    requires a.isp == b.isp || a.isp == isp
    ensures Locality(a, region, isp) >= Locality(b, region, isp) && Topology(a, region, isp) >= Topology(b, region, isp)
    ensures a.region == region != b.region ==> Locality(a, region, isp) > Locality(b, region, isp)
  {
  }

  lemma LossTerms(a: NodeInfo, b: NodeInfo)
    ensures LossClass(a) < LossClass(b) ==> Stability(a) > Stability(b)
    ensures a.lossRate == b.lossRate ==> Stability(a) == Stability(b)
  {
  }

  lemma CapacityTerms(a: NodeInfo, b: NodeInfo)
    requires a.bwLimit == b.bwLimit
    ensures a.bwUsed == b.bwUsed && a.childrenCount == b.childrenCount ==> Capacity(a) == Capacity(b)
    ensures a.bwLimit > 0 && a.bwUsed == b.bwUsed && a.childrenCount <= 0 < b.childrenCount
        ==> Capacity(a) > Capacity(b)
    ensures a.bwLimit > 0 && a.bwUsed < b.bwUsed && a.childrenCount == b.childrenCount ==> Capacity(a) > Capacity(b)
  {
    if a.bwLimit > 0 && a.bwUsed < b.bwUsed {
      LessUsed(a.bwUsed, b.bwUsed, a.bwLimit);
    }
  }

  lemma LessUsed(used: int, more: int, limit: int)
    requires used < more && limit > 0
    ensures used as real / limit as real < more as real / limit as real
  {
    assert (more - used) as real / limit as real > 0.0;
    assert more as real / limit as real == used as real / limit as real + (more - used) as real / limit as real;
  }
}
