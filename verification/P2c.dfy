/** Power of two choices: two weighted draws a round, the better of the two is taken. */
module P2c {
  import opened Options
  import opened CascadeSelector
  import opened NodeStore
  import opened Outliers

  datatype Scored = Scored(node: NodeInfo, score: real, effectiveWeight: real)

  /** The generator's successive values. */
  type Draws = nat -> real

  ghost predicate InUnit(draws: Draws) {
    forall k: nat :: 0.0 <= draws(k) < 1.0
  }

  predicate DistinctIds(nodes: seq<Scored>) {
    forall i, j | 0 <= i < j < |nodes| :: nodes[i].node.nodeId != nodes[j].node.nodeId
  }

  function Total(nodes: seq<Scored>): real {
    if nodes == [] then 0.0 else Total(nodes[..|nodes| - 1]) + nodes[|nodes| - 1].score
  }

  predicate AllPositive(nodes: seq<Scored>) {
    forall k | 0 <= k < |nodes| :: nodes[k].score > 0.0
  }

  // ----- one weighted draw -----

  /** The first place at which the running total reaches `r`. */
  function PickIndex(nodes: seq<Scored>, r: real): (i: nat)
    requires nodes != []
    ensures i < |nodes|
  {
    var front := nodes[..|nodes| - 1];
    if front != [] && r <= Total(front) then PickIndex(front, r) else |nodes| - 1
  }

  lemma {:induction false} TotalGrows(nodes: seq<Scored>, m: nat, n: nat)
    requires AllPositive(nodes) && m <= n <= |nodes|
    ensures Total(nodes[..m]) <= Total(nodes[..n])
    ensures m < n ==> Total(nodes[..m]) < Total(nodes[..n])
    decreases n
  {
    if m < n {
      TotalGrows(nodes, m, n - 1);
      assert nodes[..n][..n - 1] == nodes[..n - 1];
    }
  }

  lemma TotalPositive(nodes: seq<Scored>)
    requires AllPositive(nodes)
    ensures Total(nodes) >= 0.0 && (nodes != [] ==> Total(nodes) > 0.0)
  {
    TotalGrows(nodes, 0, |nodes|);
    assert nodes[..|nodes|] == nodes && nodes[..0] == [];
  }

  /** Each place owns the stretch of the line from the total before it to the total with it, so a place is
      drawn in proportion to its score; a draw below one always lands. */
  lemma {:induction false} PickOwnsItsStretch(nodes: seq<Scored>, r: real, i: nat)
    requires nodes != [] && AllPositive(nodes) && 0.0 <= r <= Total(nodes) && i < |nodes|
    ensures PickIndex(nodes, r) == i
       <==> (i == 0 || Total(nodes[..i]) < r) && r <= Total(nodes[..i + 1])
  {
    var n := |nodes| - 1;
    var front := nodes[..n];
    assert nodes[..n + 1] == nodes;
    if front != [] && r <= Total(front) {
      if i < n {
        PickOwnsItsStretch(front, r, i);
        assert front[..i] == nodes[..i] && front[..i + 1] == nodes[..i + 1];
      }
    } else if i < n {
      TotalGrows(nodes, i + 1, n);
    }
  }

  function Reach(draw: real, total: real): (r: real)
    ensures 0.0 <= draw < 1.0 && total >= 0.0 ==> 0.0 <= r <= total
  {
    NonNegative(draw, total);
    NonNegative(1.0 - draw, total);
    draw * total
  }

  lemma NonNegative(x: real, y: real)
    ensures x >= 0.0 && y >= 0.0 ==> x * y >= 0.0
  {
  }

  method PickOne(available: seq<Scored>, totalWeight: real, draw: real) returns (i: nat)
    requires available != [] && AllPositive(available) && totalWeight == Total(available)
    requires 0.0 <= draw < 1.0
    ensures i == PickIndex(available, Reach(draw, totalWeight))
  {
    hide Reach;
    var r := Reach(draw, totalWeight);
    TotalPositive(available);
    var cumulative := 0.0;
    i := 0;
    while i < |available|
      invariant i <= |available|
      invariant cumulative == Total(available[..i])
      invariant i > 0 ==> cumulative < r
      invariant i == |available| ==> cumulative == totalWeight
    {
      assert available[..i + 1][..i] == available[..i];
      assert available[..|available|] == available;
      cumulative := cumulative + available[i].score;
      if r <= cumulative {
        PickOwnsItsStretch(available, r, i);
        return;
      }
      i := i + 1;
    }
    // the code's fallback for rounding: with exact sums the loop has always returned
    assert false;
  }

  // ----- two draws -----

  predicate IsOpen(nodes: seq<Scored>, used: set<nat>, i: nat) {
    i < |nodes| && i !in used && nodes[i].score > 0.0
  }

  /** The places among the first k that are unused and worth drawing. */
  function Open(nodes: seq<Scored>, used: set<nat>, k: nat): (open: seq<nat>)
    requires k <= |nodes|
    ensures forall j | 0 <= j < |open| :: IsOpen(nodes, used, open[j]) && open[j] < k
  {
    if k == 0 then []
    else Open(nodes, used, k - 1) + if IsOpen(nodes, used, k - 1) then [k - 1] else []
  }

  predicate ArePlaces(nodes: seq<Scored>, places: seq<nat>) {
    forall j | 0 <= j < |places| :: places[j] < |nodes|
  }

  function At(nodes: seq<Scored>, places: seq<nat>): (s: seq<Scored>)
    requires ArePlaces(nodes, places)
    ensures |s| == |places| && forall k | 0 <= k < |s| :: s[k] == nodes[places[k]]
  {
    seq(|places|, k requires 0 <= k < |places| && ArePlaces(nodes, places) => nodes[places[k]])
  }

  function Without<T>(s: seq<T>, i: nat): (r: seq<T>)
    requires i < |s|
    ensures |r| == |s| - 1
    ensures forall j | 0 <= j < |r| :: r[j] == if j < i then s[j] else s[j + 1]
  {
    s[..i] + s[i + 1..]
  }

  function Draw(nodes: seq<Scored>, places: seq<nat>, draw: real): (j: nat)
    requires ArePlaces(nodes, places) && places != []
    ensures j < |places|
  {
    PickIndex(At(nodes, places), Reach(draw, Total(At(nodes, places))))
  }

  /** The draw falls into the stretch that place i owns of the total score. */
  predicate FallsOn(nodes: seq<Scored>, draw: real, i: nat) {
    i < |nodes| && (i == 0 || Total(nodes[..i]) < draw * Total(nodes)) && draw * Total(nodes) <= Total(nodes[..i + 1])
  }

  /** Each place is drawn in proportion to its score. */
  lemma DrawIsProportional(nodes: seq<Scored>, places: seq<nat>, draw: real, j: nat)
    requires ArePlaces(nodes, places) && places != [] && AllPositive(At(nodes, places)) && 0.0 <= draw < 1.0
    ensures Draw(nodes, places, draw) == j <==> FallsOn(At(nodes, places), draw, j)
  {
    hide At, PickIndex, Total;
    var s := At(nodes, places);
    TotalPositive(s);
    assert Reach(draw, Total(s)) == draw * Total(s);
    if j < |s| {
      PickOwnsItsStretch(s, draw * Total(s), j);
    }
  }

  /** The places the two draws land on; the second draw is made among what the first leaves. */
  function Pair(nodes: seq<Scored>, used: set<nat>, draw0: real, draw1: real): (pair: seq<nat>)
    ensures ArePlaces(nodes, pair)
  {
    var open := Open(nodes, used, |nodes|);
    if open == [] then []
    else
      var i := Draw(nodes, open, draw0);
      var rest := Without(open, i);
      if rest == [] then [open[i]] else [open[i], rest[Draw(nodes, rest, draw1)]]
  }

  lemma TotalNext(nodes: seq<Scored>, n: Scored)
    ensures Total(nodes + [n]) == Total(nodes) + n.score
  {
    assert (nodes + [n])[..|nodes|] == nodes;
  }

  lemma OpenNone(nodes: seq<Scored>, used: set<nat>)
    ensures Open(nodes, used, 0) == [] && At(nodes, []) == [] && Total([]) == 0.0
  {
  }

  lemma OpenNext(nodes: seq<Scored>, used: set<nat>, k: nat)
    requires k < |nodes|
    ensures Open(nodes, used, k + 1) == Open(nodes, used, k) + if k !in used && nodes[k].score > 0.0 then [k] else []
    ensures At(nodes, Open(nodes, used, k + 1))
         == At(nodes, Open(nodes, used, k)) + if k !in used && nodes[k].score > 0.0 then [nodes[k]] else []
  {
  }

  /** The two draws land on different open places, and miss only when there is none. */
  lemma PairShape(nodes: seq<Scored>, used: set<nat>, draw0: real, draw1: real)
    ensures var pair := Pair(nodes, used, draw0, draw1);
            && |pair| == Lesser(2, |Open(nodes, used, |nodes|)|)
            && (forall j | 0 <= j < |pair| :: IsOpen(nodes, used, pair[j]))
            && (|pair| == 2 ==> pair[0] != pair[1])
  {
    hide Draw, IsOpen, Open, At;
    OpenIncreases(nodes, used, |nodes|);
  }

  lemma {:induction false} OpenIsExact(nodes: seq<Scored>, used: set<nat>, k: nat)
    requires k <= |nodes|
    ensures forall i: nat :: i in Open(nodes, used, k) <==> i < k && i !in used && nodes[i].score > 0.0
  {
    if k > 0 {
      OpenIsExact(nodes, used, k - 1);
    }
  }

  /** The pair is what the two draws fall on: place i of those open, and place j of the rest. */
  predicate DrawnFrom(nodes: seq<Scored>, open: seq<nat>, pair: seq<nat>, draw0: real, draw1: real, i: nat, j: nat)
    requires ArePlaces(nodes, open)
  {
    && i < |open| && FallsOn(At(nodes, open), draw0, i)
    && if |open| == 1 then pair == [open[i]]
       else
         var rest := Without(open, i);
         ArePlaces(nodes, rest) && j < |rest| && FallsOn(At(nodes, rest), draw1, j) && pair == [open[i], rest[j]]
  }

  /** The first draw falls on the open places, the second on those without the first. */
  lemma PairIsDrawn(nodes: seq<Scored>, used: set<nat>, draw0: real, draw1: real) returns (i: nat, j: nat)
    requires Open(nodes, used, |nodes|) != [] && 0.0 <= draw0 < 1.0 && 0.0 <= draw1 < 1.0
    ensures DrawnFrom(nodes, Open(nodes, used, |nodes|), Pair(nodes, used, draw0, draw1), draw0, draw1, i, j)
  {
    hide Draw, FallsOn, Open, At;
    var open := Open(nodes, used, |nodes|);
    OpenIsExact(nodes, used, |nodes|);
    i, j := Draw(nodes, open, draw0), 0;
    assert AllPositive(At(nodes, open));
    DrawIsProportional(nodes, open, draw0, i);
    var rest := Without(open, i);
    if |open| > 1 {
      WithoutPositive(nodes, open, i);
      j := Draw(nodes, rest, draw1);
      DrawIsProportional(nodes, rest, draw1, j);
    }
  }

  lemma WithoutPositive(nodes: seq<Scored>, places: seq<nat>, i: nat)
    requires ArePlaces(nodes, places) && i < |places| && AllPositive(At(nodes, places))
    ensures ArePlaces(nodes, Without(places, i)) && AllPositive(At(nodes, Without(places, i)))
  {
    AtWithout(nodes, places, i);
  }

  lemma {:induction false} OpenIncreases(nodes: seq<Scored>, used: set<nat>, k: nat)
    requires k <= |nodes|
    ensures forall i, j | 0 <= i < j < |Open(nodes, used, k)| ::
              Open(nodes, used, k)[i] < Open(nodes, used, k)[j]
  {
    if k > 0 {
      OpenIncreases(nodes, used, k - 1);
    }
  }

  lemma {:induction false} TotalWithout(nodes: seq<Scored>, i: nat)
    requires i < |nodes|
    ensures Total(Without(nodes, i)) == Total(nodes) - nodes[i].score
  {
    var n := |nodes| - 1;
    if i == n {
      assert Without(nodes, i) == nodes[..n];
    } else {
      TotalWithout(nodes[..n], i);
      assert Without(nodes, i)[..n - 1] == Without(nodes[..n], i);
    }
  }

  method PickTwoWeighted(nodes: seq<Scored>, used: set<nat>, draw0: real, draw1: real)
    returns (result: seq<Scored>)
    requires 0.0 <= draw0 < 1.0 && 0.0 <= draw1 < 1.0
    ensures result == At(nodes, Pair(nodes, used, draw0, draw1))
  {
    hide PickIndex, IsOpen, Open, Total, At, Reach;
    var available, totalWeight := OpenNodes(nodes, used);
    ghost var open := Open(nodes, used, |nodes|);
    result := [];
    TotalPositive(available);
    if |available| == 0 || totalWeight <= 0.0 {
      return;
    }
    var i := PickOne(available, totalWeight, draw0);
    TotalWithout(available, i);
    totalWeight := totalWeight - available[i].score;
    result := [available[i]];
    available := available[..i] + available[i + 1..];
    ghost var rest := Without(open, i);
    assert available == At(nodes, rest) by { AtWithout(nodes, open, i); }
    if available != [] {
      var j := PickOne(available, totalWeight, draw1);
      result := result + [available[j]];
    }
  }

  lemma AtWithout(nodes: seq<Scored>, places: seq<nat>, i: nat)
    requires ArePlaces(nodes, places) && i < |places|
    ensures At(nodes, Without(places, i)) == Without(At(nodes, places), i)
  {
    hide At;
  }

  method OpenNodes(nodes: seq<Scored>, used: set<nat>) returns (available: seq<Scored>, totalWeight: real)
    ensures available == At(nodes, Open(nodes, used, |nodes|))
    ensures totalWeight == Total(available) && AllPositive(available)
  {
    hide IsOpen, Open, At, Total;
    OpenNone(nodes, used);
    available, totalWeight := [], 0.0;
    for i := 0 to |nodes|
      invariant available == At(nodes, Open(nodes, used, i))
      invariant totalWeight == Total(available)
      invariant AllPositive(available)
    {
      OpenNext(nodes, used, i);
      if i !in used && nodes[i].score > 0.0 {
        TotalNext(available, nodes[i]);
        available := available + [nodes[i]];
        totalWeight := totalWeight + nodes[i].score;
      }
    }
  }

  // ----- the rounds -----

  predicate Better(a: Scored, b: Scored) {
    a.effectiveWeight > b.effectiveWeight || (a.effectiveWeight == b.effectiveWeight && a.score > b.score)
  }

  function Winner(nodes: seq<Scored>, pair: seq<nat>): (w: nat)
    requires pair != [] && ArePlaces(nodes, pair)
    ensures w < |nodes| && (w == pair[0] || (|pair| > 1 && w == pair[1]))
  {
    if |pair| > 1 && Better(nodes[pair[1]], nodes[pair[0]]) then pair[1] else pair[0]
  }

  /** The places chosen in at most n more rounds, counting from round `round`. */
  function Picks(nodes: seq<Scored>, used: set<nat>, n: nat, draws: Draws, round: nat): (picks: seq<nat>)
    ensures ArePlaces(nodes, picks)
    decreases n
  {
    var pair := Pair(nodes, used, draws(2 * round), draws(2 * round + 1));
    if n == 0 || pair == [] then []
    else
      var w := Winner(nodes, pair);
      [w] + Picks(nodes, used + {w}, n - 1, draws, round + 1)
  }

  /** One round: the winner of two draws comes first, and its place is used up. */
  lemma PicksNext(nodes: seq<Scored>, used: set<nat>, n: nat, draws: Draws, round: nat)
    requires n > 0
    ensures var pair := Pair(nodes, used, draws(2 * round), draws(2 * round + 1));
            if pair == [] then Picks(nodes, used, n, draws, round) == []
            else
              var w := Winner(nodes, pair);
              Picks(nodes, used, n, draws, round) == [w] + Picks(nodes, used + {w}, n - 1, draws, round + 1)
  {
    hide Pair, Winner;
  }

  lemma NothingLeft(nodes: seq<Scored>, used: set<nat>, draws: Draws, round: nat)
    ensures Picks(nodes, used, 0, draws, round) == []
  {
  }

  lemma {:induction false} OpenShrinks(nodes: seq<Scored>, used: set<nat>, w: nat, k: nat)
    requires k <= |nodes| && IsOpen(nodes, used, w)
    ensures |Open(nodes, used + {w}, k)| == |Open(nodes, used, k)| - if w < k then 1 else 0
  {
    if k > 0 {
      OpenShrinks(nodes, used, w, k - 1);
    }
  }

  /** The chosen places are distinct, unused and of positive score, and as many as there can be. */
  lemma {:induction false} PicksShape(nodes: seq<Scored>, used: set<nat>, n: nat, draws: Draws, round: nat)
    ensures var picks := Picks(nodes, used, n, draws, round);
            && |picks| == Lesser(n, |Open(nodes, used, |nodes|)|)
            && (forall j | 0 <= j < |picks| :: IsOpen(nodes, used, picks[j]))
            && (forall i, j | 0 <= i < j < |picks| :: picks[i] != picks[j])
    decreases n
  {
    hide Pair, Open, Winner;
    var pair := Pair(nodes, used, draws(2 * round), draws(2 * round + 1));
    PairShape(nodes, used, draws(2 * round), draws(2 * round + 1));
    if n > 0 && pair != [] {
      var w := Winner(nodes, pair);
      OpenShrinks(nodes, used, w, |nodes|);
      PicksShape(nodes, used + {w}, n - 1, draws, round + 1);
    }
  }

  function Taken(used: set<nat>, picks: seq<nat>): set<nat> {
    used + set p | p in picks
  }

  /** No place of the pair has a greater weight than this one, nor the same weight and a higher score. */
  predicate NoneOutweighs(nodes: seq<Scored>, pair: seq<nat>, w: nat) {
    && w < |nodes| && ArePlaces(nodes, pair)
    && forall j | 0 <= j < |pair| ::
         || nodes[pair[j]].effectiveWeight < nodes[w].effectiveWeight
         || (nodes[pair[j]].effectiveWeight == nodes[w].effectiveWeight && nodes[pair[j]].score <= nodes[w].score)
  }

  /** In every round one of the two places drawn is chosen, and the other does not weigh more, nor score
      higher at equal weight. */
  lemma {:induction false} PicksAreWinners(nodes: seq<Scored>, used: set<nat>, n: nat, draws: Draws, round: nat, k: nat)
    requires k < |Picks(nodes, used, n, draws, round)|
    ensures var picks := Picks(nodes, used, n, draws, round);
            var pair := Pair(nodes, Taken(used, picks[..k]), draws(2 * (round + k)), draws(2 * (round + k) + 1));
            picks[k] in pair && NoneOutweighs(nodes, pair, picks[k])
    decreases n
  {
    hide Pair, Winner, NoneOutweighs, Picks, Taken;
    var picks := Picks(nodes, used, n, draws, round);
    var pair := Pair(nodes, used, draws(2 * round), draws(2 * round + 1));
    if n == 0 {
      NothingLeft(nodes, used, draws, round);
    }
    PicksNext(nodes, used, n, draws, round);
    if k == 0 {
      assert Taken(used, picks[..0]) == used by { NoneTaken(used, picks); }
      PairShape(nodes, used, draws(2 * round), draws(2 * round + 1));
      WinnerBeats(nodes, pair);
    } else {
      var w := Winner(nodes, pair);
      PicksAreWinners(nodes, used + {w}, n - 1, draws, round + 1, k - 1);
      var rest := Picks(nodes, used + {w}, n - 1, draws, round + 1);
      assert picks[..k] == [w] + rest[..k - 1];
      OneTaken(used, w, rest[..k - 1]);
    }
  }

  lemma NoneTaken(used: set<nat>, picks: seq<nat>)
    ensures Taken(used, picks[..0]) == used
  {
  }

  lemma OneTaken(used: set<nat>, w: nat, picks: seq<nat>)
    ensures Taken(used, [w] + picks) == Taken(used + {w}, picks)
  {
  }

  lemma WinnerBeats(nodes: seq<Scored>, pair: seq<nat>)
    requires pair != [] && |pair| <= 2 && ArePlaces(nodes, pair)
    ensures var w := Winner(nodes, pair);
            w in pair && NoneOutweighs(nodes, pair, w)
  {
  }

  /** While more places are open than rounds remain, a place that every other open one outweighs, or matches
      in weight and outscores, is never chosen, however the draws fall. */
  lemma {:induction false} WorstNeverPicked(nodes: seq<Scored>, used: set<nat>, n: nat, draws: Draws,
                                            round: nat, worst: nat)
    requires |Open(nodes, used, |nodes|)| > n && worst < |nodes|
    requires forall i: nat | i < |nodes| && i !in used && nodes[i].score > 0.0 && i != worst ::
               || nodes[i].effectiveWeight > nodes[worst].effectiveWeight
               || (nodes[i].effectiveWeight == nodes[worst].effectiveWeight && nodes[i].score > nodes[worst].score)
    ensures worst !in Picks(nodes, used, n, draws, round)
    decreases n
  {
    hide Pair, Open, Winner, Better;
    if n > 0 {
      var pair := Pair(nodes, used, draws(2 * round), draws(2 * round + 1));
      PairShape(nodes, used, draws(2 * round), draws(2 * round + 1));
      WinnerBeats(nodes, pair);
      var w := Winner(nodes, pair);
      OpenShrinks(nodes, used, w, |nodes|);
      WorstNeverPicked(nodes, used + {w}, n - 1, draws, round + 1, worst);
    }
  }

  function NodesOf(nodes: seq<Scored>): (s: seq<NodeInfo>)
    ensures |s| == |nodes| && forall k | 0 <= k < |s| :: s[k] == nodes[k].node
  {
    seq(|nodes|, k requires 0 <= k < |nodes| => nodes[k].node)
  }

  function NodesAt(nodes: seq<Scored>, places: seq<nat>): (s: seq<NodeInfo>)
    requires ArePlaces(nodes, places)
    ensures |s| == |places| && forall k | 0 <= k < |s| :: s[k] == nodes[places[k]].node
  {
    seq(|places|, k requires 0 <= k < |places| && ArePlaces(nodes, places) => nodes[places[k]].node)
  }

  lemma NodesAtCons(nodes: seq<Scored>, w: nat, places: seq<nat>)
    requires w < |nodes| && ArePlaces(nodes, places)
    ensures NodesAt(nodes, [w] + places) == [nodes[w].node] + NodesAt(nodes, places)
  {
  }

  /** Where the node with this id stands, as the controller finds a winner's place again. */
  method FindPlace(nodes: seq<Scored>, winner: Scored) returns (place: nat)
    requires winner in nodes && DistinctIds(nodes)
    ensures place < |nodes| && nodes[place] == winner
  {
    for i := 0 to |nodes|
      invariant winner !in nodes[..i]
    {
      if nodes[i].node.nodeId == winner.node.nodeId {
        return i;
      }
    }
    assert false;
  }

  /** One turn of the selection loop: the place that wins, if anything is left to draw. */
  method Round(nodes: seq<Scored>, used: set<nat>, draw0: real, draw1: real) returns (place: Option<nat>)
    requires DistinctIds(nodes) && 0.0 <= draw0 < 1.0 && 0.0 <= draw1 < 1.0
    ensures place == var pair := Pair(nodes, used, draw0, draw1);
                     if pair == [] then None else Some(Winner(nodes, pair))
  {
    hide Pair;
    var candidates := PickTwoWeighted(nodes, used, draw0, draw1);
    if |candidates| < 1 {
      return None;
    }
    if |candidates| == 1 {
      var only := FindPlace(nodes, candidates[0]);
      return Some(only);
    }
    var winner := candidates[0];
    if candidates[1].effectiveWeight > candidates[0].effectiveWeight {
      winner := candidates[1];
    } else if candidates[1].effectiveWeight == candidates[0].effectiveWeight {
      if candidates[1].score > candidates[0].score {
        winner := candidates[1];
      }
    }
    var found := FindPlace(nodes, winner);
    return Some(found);
  }

  /** What p2cSelect returns. */
  function Selection(nodes: seq<Scored>, n: nat, draws: Draws): seq<NodeInfo> {
    if |nodes| <= n then NodesOf(nodes) else NodesAt(nodes, Picks(nodes, {}, n, draws, 0))
  }

  method P2cSelect(nodes: seq<Scored>, n: nat, draws: Draws) returns (selected: seq<NodeInfo>)
    requires DistinctIds(nodes) && InUnit(draws)
    ensures selected == Selection(nodes, n, draws)
  {
    hide Picks, Pair, Open, NodesAt, NodesOf, At;
    selected := [];
    if |nodes| <= n {
      for i := 0 to |nodes|
        invariant |selected| == i && forall k | 0 <= k < i :: selected[k] == nodes[k].node
      {
        selected := selected + [nodes[i].node];
      }
      assert selected == NodesOf(nodes);
      return;
    }
    var used, round := {}, 0;
    while |selected| < n
      invariant |selected| <= n
      invariant Selection(nodes, n, draws)
             == selected + NodesAt(nodes, Picks(nodes, used, n - |selected|, draws, round))
    {
      ghost var left := n - |selected|;
      PicksNext(nodes, used, left, draws, round);
      var place := Round(nodes, used, draws(2 * round), draws(2 * round + 1));
      if place.None? {
        break;
      }
      NodesAtCons(nodes, place.value, Picks(nodes, used + {place.value}, left - 1, draws, round + 1));
      selected := selected + [nodes[place.value].node];
      used := used + {place.value};
      round := round + 1;
    }
    NothingLeft(nodes, used, draws, round);
  }
}
