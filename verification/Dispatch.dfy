/** Choosing the nodes a viewer is sent to. */
module Dispatch {
  import opened Options
  import opened CascadeSelector
  import opened NodeStore
  import opened Outliers
  import opened P2c

  datatype Endpoint = Endpoint(node: NodeInfo, priority: nat)

  datatype Result = Ok(endpoints: seq<Endpoint>) | NoAvailableNodes

  predicate DistinctNodes(nodes: seq<NodeInfo>) {
    forall i, j | 0 <= i < j < |nodes| :: nodes[i].nodeId != nodes[j].nodeId
  }

  // ----- leaving out ejected nodes -----

  function MaxEject(n: nat): nat {
    3 * n / 10
  }

  predicate IsOut(outliers: OutlierMap, n: NodeInfo, now: Time) {
    n.nodeId in outliers && Flagged(outliers[n.nodeId], now)
  }

  /** How many of the first k nodes are in an ejection. */
  function OutCount(outliers: OutlierMap, nodes: seq<NodeInfo>, k: nat, now: Time): (c: nat)
    requires k <= |nodes|
    ensures c <= k
  {
    if k == 0 then 0 else OutCount(outliers, nodes, k - 1, now) + if IsOut(outliers, nodes[k - 1], now) then 1 else 0
  }

  /** Only the first 30% of the list that are in an ejection are left out. */
  predicate IsOmitted(outliers: OutlierMap, nodes: seq<NodeInfo>, i: nat, now: Time)
    requires i < |nodes|
  {
    IsOut(outliers, nodes[i], now) && OutCount(outliers, nodes, i, now) < MaxEject(|nodes|)
  }

  /** The places among the first k that stay. */
  function KeptPlaces(outliers: OutlierMap, nodes: seq<NodeInfo>, k: nat, now: Time): (kept: seq<nat>)
    requires k <= |nodes|
    ensures forall j | 0 <= j < |kept| :: kept[j] < k
  {
    if k == 0 then []
    else KeptPlaces(outliers, nodes, k - 1, now) + if IsOmitted(outliers, nodes, k - 1, now) then [] else [k - 1]
  }

  function Available(outliers: OutlierMap, nodes: seq<NodeInfo>, now: Time): (r: seq<NodeInfo>) {
    var kept := KeptPlaces(outliers, nodes, |nodes|, now);
    seq(|kept|, j requires 0 <= j < |kept| => nodes[kept[j]])
  }

  method FilterOutliers(d: Detector, nodes: seq<NodeInfo>, now: Time) returns (available: seq<NodeInfo>)
    ensures available == Available(d.outliers, nodes, now)
  {
    var maxEject := 3 * |nodes| / 10;
    var ejected := 0;
    available := [];
    for i := 0 to |nodes|
      invariant ejected == Lesser(OutCount(d.outliers, nodes, i, now), maxEject)
      invariant |available| == |KeptPlaces(d.outliers, nodes, i, now)|
      invariant forall j | 0 <= j < |available| :: available[j] == nodes[KeptPlaces(d.outliers, nodes, i, now)[j]]
    {
      var n := nodes[i];
      if n.nodeId !in d.outliers || d.outliers[n.nodeId].ejectedUntil.None? {
        available := available + [n];
      } else if now > d.outliers[n.nodeId].ejectedUntil.value {
        available := available + [n];
      } else if ejected < maxEject {
        ejected := ejected + 1;
      } else {
        available := available + [n];
      }
    }
  }

  predicate Increasing(places: seq<nat>) {
    forall i, j | 0 <= i < j < |places| :: places[i] < places[j]
  }

  /** The filter keeps the order, leaves out nodes in an ejection only, as many as there are but never
      more than 30%, and so never empties a list. */
  lemma FilterShape(outliers: OutlierMap, nodes: seq<NodeInfo>, now: Time)
    ensures var kept := KeptPlaces(outliers, nodes, |nodes|, now);
            && Increasing(kept)
            && (forall i: nat :: i in kept <==> i < |nodes| && !IsOmitted(outliers, nodes, i, now))
            && |kept| == |nodes| - Lesser(OutCount(outliers, nodes, |nodes|, now), MaxEject(|nodes|))
  {
    hide KeptPlaces, IsOmitted, OutCount;
    KeptInOrder(outliers, nodes, |nodes|, now);
    KeptIsExact(outliers, nodes, |nodes|, now);
    KeptCount(outliers, nodes, |nodes|, now);
  }

  lemma {:induction false} KeptInOrder(outliers: OutlierMap, nodes: seq<NodeInfo>, k: nat, now: Time)
    requires k <= |nodes|
    ensures Increasing(KeptPlaces(outliers, nodes, k, now))
  {
    hide IsOmitted;
    if k > 0 {
      KeptInOrder(outliers, nodes, k - 1, now);
    }
  }

  lemma {:induction false} KeptIsExact(outliers: OutlierMap, nodes: seq<NodeInfo>, k: nat, now: Time)
    requires k <= |nodes|
    ensures forall i: nat :: i in KeptPlaces(outliers, nodes, k, now)
                        <==> i < k && !IsOmitted(outliers, nodes, i, now)
  {
    hide IsOmitted;
    if k > 0 {
      KeptIsExact(outliers, nodes, k - 1, now);
    }
  }

  lemma {:induction false} KeptCount(outliers: OutlierMap, nodes: seq<NodeInfo>, k: nat, now: Time)
    requires k <= |nodes|
    ensures |KeptPlaces(outliers, nodes, k, now)|
         == k - Lesser(OutCount(outliers, nodes, k, now), MaxEject(|nodes|))
  {
    hide IsOut;
    if k > 0 {
      KeptCount(outliers, nodes, k - 1, now);
    }
  }

  /** Hence the fallback for "every node is ejected" is never taken. */
  lemma SomethingIsAvailable(outliers: OutlierMap, nodes: seq<NodeInfo>, now: Time)
    ensures |Available(outliers, nodes, now)|
         == |nodes| - Lesser(OutCount(outliers, nodes, |nodes|, now), MaxEject(|nodes|))
    ensures 10 * MaxEject(|nodes|) <= 3 * |nodes| < 10 * MaxEject(|nodes|) + 10
    ensures 10 * |Available(outliers, nodes, now)| >= 7 * |nodes|
    ensures nodes != [] ==> Available(outliers, nodes, now) != []
    ensures forall n | n in Available(outliers, nodes, now) :: n in nodes
    ensures DistinctNodes(nodes) ==> DistinctNodes(Available(outliers, nodes, now))
  {
    hide KeptPlaces, IsOmitted, OutCount;
    FilterShape(outliers, nodes, now);
  }

  // ----- scores -----

  function ScoreOf(n: NodeInfo, base: NodeInfo -> real): Scored {
    var ew := if n.effectiveWeight <= 0.0 then 0.1 else n.effectiveWeight;
    Scored(n, base(n) * ew, ew)
  }

  lemma NodeOfScore(n: NodeInfo, base: NodeInfo -> real)
    ensures ScoreOf(n, base).node == n
  {
  }

  /** What a node's weight counts for; one without a weight still counts a tenth. */
  function Share(n: NodeInfo): (w: real)
    ensures w > 0.0
  {
    if n.effectiveWeight > 0.0 then n.effectiveWeight else 0.1
  }

  lemma ScoreIsShare(n: NodeInfo, base: NodeInfo -> real)
    ensures ScoreOf(n, base).effectiveWeight == Share(n) && ScoreOf(n, base).score == base(n) * Share(n)
    ensures ScoreOf(n, base).score > 0.0 <==> base(n) > 0.0
  {
    SameSign(base(n), Share(n));
  }

  lemma SameSign(x: real, w: real)
    requires w > 0.0
    ensures x * w > 0.0 <==> x > 0.0
  {
    if x > 0.0 {
      assert x * w > 0.0;
    } else {
      assert (-x) * w >= 0.0;
      assert x * w == -((-x) * w);
    }
  }

  lemma SameOrder(x: real, y: real, w: real)
    requires w > 0.0
    ensures x * w > y * w <==> x > y
  {
    SameSign(x - y, w);
    assert (x - y) * w == x * w - y * w;
  }

  predicate SortedByScore(scored: seq<Scored>) {
    forall i, j | 0 <= i < j < |scored| :: scored[i].score >= scored[j].score
  }

  predicate IsScoring(scored: seq<Scored>, nodes: seq<NodeInfo>, base: NodeInfo -> real) {
    && |scored| == |nodes| && DistinctIds(scored)
    && (forall k | 0 <= k < |scored| :: scored[k].node in nodes && scored[k] == ScoreOf(scored[k].node, base))
    && (forall n | n in nodes :: ScoreOf(n, base) in scored)
  }

  /** Some order by falling score; the library's sort is free to place equal scores either way. */
  method SortByScore(unsorted: seq<Scored>) returns (sorted: seq<Scored>)
    requires DistinctIds(unsorted)
    ensures |sorted| == |unsorted| && SortedByScore(sorted) && DistinctIds(sorted)
    ensures forall s :: s in sorted <==> s in unsorted
  {
    sorted := [];
    for i := 0 to |unsorted|
      invariant |sorted| == i && SortedByScore(sorted) && DistinctIds(sorted)
      invariant forall s :: s in sorted <==> s in unsorted[..i]
    {
      var s, p := unsorted[i], 0;
      while p < i && sorted[p].score >= s.score
        invariant p <= i
        invariant forall k | 0 <= k < p :: sorted[k].score >= s.score
      {
        p := p + 1;
      }
      InsertKeeps(sorted, s, p, unsorted, i);
      sorted := sorted[..p] + [s] + sorted[p..];
    }
    assert unsorted[..|unsorted|] == unsorted;
  }

  lemma InsertKeeps(sorted: seq<Scored>, s: Scored, p: nat, unsorted: seq<Scored>, i: nat)
    requires |sorted| == i < |unsorted| && s == unsorted[i] && p <= i
    requires DistinctIds(unsorted) && DistinctIds(sorted) && SortedByScore(sorted)
    requires forall s :: s in sorted <==> s in unsorted[..i]
    requires forall k | 0 <= k < p :: sorted[k].score >= s.score
    requires p < i ==> sorted[p].score < s.score
    ensures var longer := sorted[..p] + [s] + sorted[p..];
            && SortedByScore(longer) && DistinctIds(longer)
            && forall t :: t in longer <==> t in unsorted[..i + 1]
  {
    forall k | 0 <= k < i ensures sorted[k].node.nodeId != s.node.nodeId {
      assert sorted[k] in unsorted[..i];
    }
    assert unsorted[..i + 1] == unsorted[..i] + [s];
  }

  method ScoreNodes(nodes: seq<NodeInfo>, base: NodeInfo -> real) returns (scored: seq<Scored>)
    requires DistinctNodes(nodes)
    ensures IsScoring(scored, nodes, base) && SortedByScore(scored)
  {
    hide ScoreOf;
    var unsorted := [];
    for i := 0 to |nodes|
      invariant |unsorted| == i && forall k | 0 <= k < i :: unsorted[k] == ScoreOf(nodes[k], base)
      invariant forall k | 0 <= k < i :: unsorted[k].node == nodes[k]
    {
      NodeOfScore(nodes[i], base);
      unsorted := unsorted + [ScoreOf(nodes[i], base)];
    }
    scored := SortByScore(unsorted);
    forall k | 0 <= k < |scored| ensures scored[k].node in nodes && scored[k] == ScoreOf(scored[k].node, base) {
      assert scored[k] in unsorted;
    }
    forall n | n in nodes ensures ScoreOf(n, base) in scored {
      var k :| 0 <= k < |nodes| && nodes[k] == n;
      assert unsorted[k] in unsorted;
    }
  }

  // ----- what a selection promises -----

  /** The nodes that can be drawn at all. */
  function Worthy(nodes: seq<NodeInfo>, base: NodeInfo -> real): set<NodeInfo> {
    set n | n in nodes && base(n) > 0.0
  }

  /** Every other node worth drawing has a greater weight, or the same weight and a higher base score. */
  predicate IsWorst(nodes: seq<NodeInfo>, base: NodeInfo -> real, worst: NodeInfo) {
    && worst in nodes
    && forall n | n in nodes && base(n) > 0.0 && n != worst ::
         Share(n) > Share(worst) || (Share(n) == Share(worst) && base(n) > base(worst))
  }

  predicate FallingScores(picked: seq<NodeInfo>, base: NodeInfo -> real) {
    forall i, j | 0 <= i < j < |picked| :: base(picked[i]) * Share(picked[i]) >= base(picked[j]) * Share(picked[j])
  }

  ghost predicate IsSelection(picked: seq<NodeInfo>, nodes: seq<NodeInfo>, n: nat, base: NodeInfo -> real) {
    && DistinctNodes(picked)
    && (forall k | 0 <= k < |picked| :: picked[k] in nodes)
    && |picked| == (if |nodes| <= n then |nodes| else Lesser(n, |Worthy(nodes, base)|))
    && (|nodes| <= n ==> FallingScores(picked, base))
    && (|nodes| > n ==> forall k | 0 <= k < |picked| :: picked[k] in Worthy(nodes, base))
    && (|Worthy(nodes, base)| > n ==> forall worst | IsWorst(nodes, base, worst) :: worst !in picked)
  }

  function WorthyAmong(scored: seq<Scored>, k: nat): set<NodeInfo>
    requires k <= |scored|
  {
    if k == 0 then {}
    else WorthyAmong(scored, k - 1) + if scored[k - 1].score > 0.0 then {scored[k - 1].node} else {}
  }

  lemma {:induction false} AmongIsExact(scored: seq<Scored>, k: nat)
    requires k <= |scored|
    ensures forall n :: n in WorthyAmong(scored, k)
                   <==> exists i: nat | i < k :: scored[i].node == n && scored[i].score > 0.0
  {
    if k > 0 {
      AmongIsExact(scored, k - 1);
    }
  }

  lemma {:induction false} OpenCountsWorthy(scored: seq<Scored>, k: nat)
    requires DistinctIds(scored) && k <= |scored|
    ensures |Open(scored, {}, k)| == |WorthyAmong(scored, k)|
  {
    if k > 0 {
      OpenCountsWorthy(scored, k - 1);
      AmongIsExact(scored, k - 1);
    }
  }

  lemma WorthyOfScoring(scored: seq<Scored>, nodes: seq<NodeInfo>, base: NodeInfo -> real)
    requires IsScoring(scored, nodes, base)
    ensures |Open(scored, {}, |scored|)| == |Worthy(nodes, base)|
  {
    hide Open, ScoreOf, WorthyAmong;
    OpenCountsWorthy(scored, |scored|);
    AmongIsExact(scored, |scored|);
    var among := WorthyAmong(scored, |scored|);
    forall n | n in Worthy(nodes, base) ensures n in among {
      NodeOfScore(n, base);
      ScoreIsShare(n, base);
      var i: nat :| i < |scored| && scored[i] == ScoreOf(n, base);
      assert scored[i].node == n && scored[i].score > 0.0;
    }
    forall n | n in among ensures n in Worthy(nodes, base) {
      ScoreIsShare(n, base);
    }
    assert among == Worthy(nodes, base);
  }

  /** The selection by two choices, however the draws fall and however equal scores are sorted. */
  lemma SelectionShape(scored: seq<Scored>, nodes: seq<NodeInfo>, n: nat, base: NodeInfo -> real, draws: Draws)
    requires IsScoring(scored, nodes, base) && SortedByScore(scored)
    ensures IsSelection(Selection(scored, n, draws), nodes, n, base)
  {
    hide Open, Picks, ScoreOf, Worthy, FallingScores, SortedByScore, IsWorst;
    var picked := Selection(scored, n, draws);
    WorthyOfScoring(scored, nodes, base);
    if |nodes| <= n {
      WorthyFits(nodes, base);
      AllAreFalling(scored, nodes, base);
    } else {
      PicksShape(scored, {}, n, draws, 0);
      var picks := Picks(scored, {}, n, draws, 0);
      forall k | 0 <= k < |picked| ensures picked[k] in Worthy(nodes, base) {
        IsWorthy(nodes, base, scored[picks[k]]);
      }
      if |Worthy(nodes, base)| > n {
        forall worst | IsWorst(nodes, base, worst) ensures worst !in picked {
          WorstIsLeft(scored, nodes, n, base, draws, worst);
        }
      }
    }
  }

  lemma ScoredAs(scored: seq<Scored>, nodes: seq<NodeInfo>, base: NodeInfo -> real, k: nat)
    requires IsScoring(scored, nodes, base) && k < |scored|
    ensures scored[k].score == base(scored[k].node) * Share(scored[k].node)
  {
    hide ScoreOf, Share, DistinctIds;
    ScoreIsShare(scored[k].node, base);
  }

  lemma AllAreFalling(scored: seq<Scored>, nodes: seq<NodeInfo>, base: NodeInfo -> real)
    requires IsScoring(scored, nodes, base) && SortedByScore(scored)
    ensures FallingScores(NodesOf(scored), base)
  {
    hide IsScoring, Share, NodesOf;
    var picked := NodesOf(scored);
    forall i, j | 0 <= i < j < |picked|
      ensures base(picked[i]) * Share(picked[i]) >= base(picked[j]) * Share(picked[j])
    {
      ScoredAs(scored, nodes, base, i);
      ScoredAs(scored, nodes, base, j);
    }
  }

  lemma IsWorthy(nodes: seq<NodeInfo>, base: NodeInfo -> real, s: Scored)
    requires s.node in nodes && s == ScoreOf(s.node, base) && s.score > 0.0
    ensures s.node in Worthy(nodes, base)
  {
    ScoreIsShare(s.node, base);
  }

  lemma {:induction false} WorthyFits(nodes: seq<NodeInfo>, base: NodeInfo -> real)
    ensures |Worthy(nodes, base)| <= |nodes|
  {
    hide ScoreOf;
    if nodes != [] {
      var n := |nodes| - 1;
      WorthyFits(nodes[..n], base);
      assert Worthy(nodes, base) <= Worthy(nodes[..n], base) + {nodes[n]};
      SubsetIsSmaller(Worthy(nodes, base), Worthy(nodes[..n], base) + {nodes[n]});
    }
  }

  lemma {:induction false} SubsetIsSmaller<T>(a: set<T>, b: set<T>)
    requires a <= b
    ensures |a| <= |b|
  {
    assert b == a + (b - a);
  }

  lemma Outranks(s: Scored, worst: NodeInfo, nodes: seq<NodeInfo>, base: NodeInfo -> real)
    requires IsWorst(nodes, base, worst) && s.node in nodes && s.node != worst
    requires s == ScoreOf(s.node, base) && s.score > 0.0
    ensures var t := ScoreOf(worst, base);
            s.effectiveWeight > t.effectiveWeight || (s.effectiveWeight == t.effectiveWeight && s.score > t.score)
  {
    hide ScoreOf, Share;
    ScoreIsShare(s.node, base);
    ScoreIsShare(worst, base);
    SameOrder(base(s.node), base(worst), Share(worst));
  }

  lemma WorstIsThere(nodes: seq<NodeInfo>, base: NodeInfo -> real, worst: NodeInfo)
    requires IsWorst(nodes, base, worst)
    ensures worst in nodes
  {
  }

  lemma WorstIsLeft(scored: seq<Scored>, nodes: seq<NodeInfo>, n: nat, base: NodeInfo -> real, draws: Draws,
                    worst: NodeInfo)
    requires IsScoring(scored, nodes, base) && |Worthy(nodes, base)| > n && IsWorst(nodes, base, worst)
    requires |nodes| > n
    ensures worst !in Selection(scored, n, draws)
  {
    hide Open, Picks, ScoreOf, Worthy, Share, IsWorst;
    WorstIsThere(nodes, base, worst);
    var w: nat :| w < |scored| && scored[w] == ScoreOf(worst, base);
    NodeOfScore(worst, base);
    forall i: nat | i < |scored| && scored[i].score > 0.0 && i != w
      ensures || scored[i].effectiveWeight > scored[w].effectiveWeight
              || (scored[i].effectiveWeight == scored[w].effectiveWeight && scored[i].score > scored[w].score)
    {
      Outranks(scored[i], worst, nodes, base);
    }
    WorthyOfScoring(scored, nodes, base);
    WorstNeverPicked(scored, {}, n, draws, 0, w);
    var picks := Picks(scored, {}, n, draws, 0);
    forall k | 0 <= k < |picks| ensures scored[picks[k]].node != worst {
      assert picks[k] in picks;
    }
  }

  // ----- dispatching -----

  function OthersThan(nodes: seq<NodeInfo>, id: NodeId): seq<NodeInfo> {
    if nodes == [] then []
    else
      var last := nodes[|nodes| - 1];
      OthersThan(nodes[..|nodes| - 1], id) + if last.nodeId != id then [last] else []
  }

  lemma {:induction false} OthersAreOthers(nodes: seq<NodeInfo>, id: NodeId)
    ensures forall n :: n in OthersThan(nodes, id) <==> n in nodes && n.nodeId != id
    ensures DistinctNodes(nodes) ==> DistinctNodes(OthersThan(nodes, id))
  {
    if nodes != [] {
      OthersAreOthers(nodes[..|nodes| - 1], id);
    }
  }

  function NodesIn(eps: seq<Endpoint>): (nodes: seq<NodeInfo>)
    ensures |nodes| == |eps| && forall k | 0 <= k < |nodes| :: nodes[k] == eps[k].node
  {
    seq(|eps|, k requires 0 <= k < |eps| => eps[k].node)
  }

  predicate NumberedInOrder(eps: seq<Endpoint>) {
    forall k | 0 <= k < |eps| :: eps[k].priority == k
  }

  predicate StickyServes(d: Detector, sticky: Option<NodeId>, mustRotate: bool, now: Time)
    reads d, d.store
  {
    && sticky.Some? && !mustRotate
    && sticky.value in d.store.nodes && IsHealthy(d.store.nodes[sticky.value], now)
    && !(sticky.value in d.outliers && d.outliers[sticky.value].ejectedUntil.Some?
         && now < d.outliers[sticky.value].ejectedUntil.value)
  }

  method NumberInOrder(nodes: seq<NodeInfo>) returns (eps: seq<Endpoint>)
    ensures NodesIn(eps) == nodes && NumberedInOrder(eps)
  {
    eps := [];
    for i := 0 to |nodes|
      invariant |eps| == i && forall k | 0 <= k < i :: eps[k] == Endpoint(nodes[k], k)
    {
      eps := eps + [Endpoint(nodes[i], i)];
    }
  }

  lemma ScoringIsDistinct(scored: seq<Scored>, nodes: seq<NodeInfo>, base: NodeInfo -> real)
    requires IsScoring(scored, nodes, base)
    ensures DistinctIds(scored)
  {
  }

  method SelectNodes(nodes: seq<NodeInfo>, n: nat, base: NodeInfo -> real, draws: Draws)
    returns (selected: seq<NodeInfo>)
    requires DistinctNodes(nodes) && InUnit(draws)
    ensures IsSelection(selected, nodes, n, base)
  {
    hide IsScoring, SortedByScore, IsSelection, Selection;
    var scored := ScoreNodes(nodes, base);
    ScoringIsDistinct(scored, nodes, base);
    selected := P2cSelect(scored, n, draws);
    SelectionShape(scored, nodes, n, base, draws);
  }

  /** The sticky node first, then up to two others. */
  method DispatchWithSticky(d: Detector, stickyNode: NodeInfo, healthy: seq<NodeInfo>, base: NodeInfo -> real,
                            draws: Draws, now: Time)
    returns (r: Result)
    requires DistinctNodes(healthy) && InUnit(draws)
    ensures r.Ok? && NumberedInOrder(r.endpoints) && DistinctNodes(NodesIn(r.endpoints))
    ensures r.endpoints != [] && r.endpoints[0].node == stickyNode
    ensures IsSelection(NodesIn(r.endpoints)[1..],
                        OthersThan(Available(d.outliers, healthy, now), stickyNode.nodeId), 2, base)
  {
    hide Available, IsSelection, OthersThan;
    SomethingIsAvailable(d.outliers, healthy, now);
    var available := FilterOutliers(d, healthy, now);
    var others := Others(available, stickyNode.nodeId);
    OthersAreOthers(available, stickyNode.nodeId);
    var selected := SelectNodes(others, 2, base, draws);
    StickyIsDistinct(stickyNode, selected, others, 2, base);
    assert ([stickyNode] + selected)[1..] == selected;
    var eps := NumberInOrder([stickyNode] + selected);
    assert eps[0].node == NodesIn(eps)[0];
    r := Ok(eps);
  }

  method Others(nodes: seq<NodeInfo>, id: NodeId) returns (others: seq<NodeInfo>)
    ensures others == OthersThan(nodes, id)
  {
    others := [];
    for i := 0 to |nodes|
      invariant others == OthersThan(nodes[..i], id)
    {
      assert nodes[..i + 1][..i] == nodes[..i];
      if nodes[i].nodeId != id {
        others := others + [nodes[i]];
      }
    }
    assert nodes[..|nodes|] == nodes;
  }

  lemma StickyIsDistinct(stickyNode: NodeInfo, backups: seq<NodeInfo>, others: seq<NodeInfo>, n: nat,
                         base: NodeInfo -> real)
    requires IsSelection(backups, others, n, base)
    requires forall n | n in others :: n.nodeId != stickyNode.nodeId
    ensures DistinctNodes([stickyNode] + backups)
  {
    hide Worthy, IsWorst, FallingScores;
  }

  /** A dispatch: `healthy` and `again` are what the registry returns the first and the second time it
      is asked, and the sticky binding is dropped (`rotated`) and set (`bound`) as the controller does. */
  method Dispatch(d: Detector, healthy: seq<NodeInfo>, sticky: Option<NodeId>, mustRotate: bool,
                  base: NodeInfo -> real, draws: Draws, now: Time, again: seq<NodeInfo>, later: Time)
    returns (r: Result, rotated: bool, bound: Option<NodeId>)
    requires DistinctNodes(healthy) && DistinctNodes(again) && InUnit(draws)
    requires forall id | id in d.store.nodes :: d.store.nodes[id].nodeId == id
    ensures r.NoAvailableNodes?
       <==> || healthy == []
            || (!StickyServes(d, sticky, mustRotate, now)
                && |Available(d.outliers, healthy, now)| > 3
                && Worthy(Available(d.outliers, healthy, now), base) == {})
    ensures r.Ok?
        ==> 1 <= |r.endpoints| <= 3 && NumberedInOrder(r.endpoints) && DistinctNodes(NodesIn(r.endpoints))
    ensures r.Ok? && StickyServes(d, sticky, mustRotate, now)
        ==> && r.endpoints[0].node == d.store.nodes[sticky.value]
            && IsSelection(NodesIn(r.endpoints)[1..],
                           OthersThan(Available(d.outliers, again, later), sticky.value), 2, base)
    ensures r.Ok? && !StickyServes(d, sticky, mustRotate, now)
        ==> IsSelection(NodesIn(r.endpoints), Available(d.outliers, healthy, now), 3, base)
    ensures rotated <==> healthy != [] && sticky.Some? && !StickyServes(d, sticky, mustRotate, now)
    ensures bound
         == if r.Ok? && !StickyServes(d, sticky, mustRotate, now) then Some(r.endpoints[0].node.nodeId) else None
  {
    hide IsHealthy, Available, Worthy;
    rotated, bound := false, None;
    if |healthy| == 0 {
      return NoAvailableNodes, rotated, bound;
    }
    var available := FilterOutliers(d, healthy, now);
    SomethingIsAvailable(d.outliers, healthy, now);
    if |available| == 0 {
      available := healthy;
    }
    if sticky.Some? {
      if !mustRotate && sticky.value in d.store.nodes && IsHealthy(d.store.nodes[sticky.value], now) {
        var ejected := d.IsEjected(sticky.value, now);
        if !ejected {
          r := DispatchWithSticky(d, d.store.nodes[sticky.value], again, base, draws, later);
          return;
        }
      }
      rotated := true;
    }
    var selected := SelectNodes(available, 3, base, draws);
    if |selected| == 0 {
      return NoAvailableNodes, rotated, bound;
    }
    bound := Some(selected[0].nodeId);
    var eps := NumberInOrder(selected);
    assert eps[0].node == NodesIn(eps)[0];
    r := Ok(eps);
  }
}
