/** Which nodes must change tiers for a cycle to close: any two, and no fewer. */
module MeshCycles {
  import opened Options
  import opened CascadeSelector
  import opened SelectorTasks
  import opened NodeStore
  import opened Mesh
  import opened MeshProtocol

  const REGION := "east"
  const ISP := "isp"

  const TIER1 := Flags(true, false)
  const TIER2 := Flags(true, true)

  function RequestOf(id: NodeId, flags: Flags): RegisterRequest {
    RegisterRequest(id, REGION, ISP, false, "relay", "", 0, flags.cascadeEnabled, flags.cascadeUpstream)
  }

  function BeatOf(id: NodeId, upstream: NodeId): HeartbeatRequest {
    HeartbeatRequest(id, 0, 0, 0.0, 0, 0, upstream, 0, 0, 0)
  }

  /** The registry's view of a node that has registered, and once online has reported its upstream. */
  function NodeOf(id: NodeId, flags: Flags, status: NodeStatus, upstream: NodeId): NodeInfo {
    NodeInfo(id, REGION, ISP, false, "relay", "", 0, 0, 0.0, status, 0, flags.cascadeEnabled, flags.cascadeUpstream,
             0, 0, upstream, 0.5, 0, 0, 0, 0, None)
  }

  function SelfOf(id: NodeId): Self {
    Self(id, REGION, ISP, false)
  }

  function HealthyNodes(to: NodeId, parent: NodeId, kept: NodeId): seq<NodeInfo> {
    [NodeOf(to, TIER2, Online, ""), NodeOf(parent, TIER1, Online, kept)]
  }

  function ResponseTo(to: NodeId, parent: NodeId, kept: NodeId): MeshResponse {
    MeshResponse(to, 2, Offers(HealthyNodes(to, parent, kept), to, NodeOf(to, TIER2, Online, "")),
                 Some(DEFAULT_POLICY), None)
  }

  const FREE_LOCKS: nat -> Locks := _ => Locks(true, true)

  /** The first candidate, never probed. */
  const FIRST := Take(0, None)

  function BeatActions(id: NodeId, n: nat): (actions: seq<Action>)
    ensures |actions| == n && forall i | 0 <= i < n :: actions[i] == Local(id, Turn(0, Beat(FIRST)))
  {
    seq(n, _ => Local(id, Turn(0, Beat(FIRST))))
  }

  /** `to` registers on tier 2 and restarts with tier-1 flags, which the registry ignores; `parent`, a
      tier-1 process that reports upstream `kept`, registers. Both report, and of the two answers only the
      one to `to` arrives. */
  function Opening(to: NodeId, parent: NodeId, kept: NodeId): (steps: seq<Action>)
    ensures |steps| == 10
  {
    [Start(SelfOf(to), TIER2), Ask(RequestOf(to, TIER2)), Register(RequestOf(to, TIER2), 0),
     Start(SelfOf(to), TIER1), Ask(RequestOf(parent, TIER1)), Register(RequestOf(parent, TIER1), 0),
     HeartbeatArrives(BeatOf(parent, kept), 0), HeartbeatArrives(BeatOf(to, ""), 0),
     Respond(to, HealthyNodes(to, parent, kept), ResponseTo(to, parent, kept), 0),
     Deliver(Message(to, ResponseTo(to, parent, kept)), 0)]
  }

  /** Then `to` handles the response, and both are removed. */
  function Steps(to: NodeId, parent: NodeId, kept: NodeId): seq<Action> {
    Opening(to, parent, kept) + BeatActions(to, 11) + [Remove(to), Remove(parent)]
  }

  /** The agents afterwards: `to` runs with tier-1 flags and what it made of the response. */
  function Adopted(agents: map<NodeId, Agent>, to: NodeId, parent: NodeId, kept: NodeId): map<NodeId, Agent> {
    agents[to := Agent(TIER1, InitialMachine(SelfOf(to)).(s := StateOf(to, parent, kept)))]
  }

  function StateOf(to: NodeId, parent: NodeId, kept: NodeId): State {
    Updated(SelfOf(to), InitialState(SelfOf(to)), ResponseTo(to, parent, kept), FREE_LOCKS, 0)
  }

  // ----- the response and the choice made from it -----

  lemma TheOnlyOffer(to: NodeId, parent: NodeId, kept: NodeId)
    requires to != parent
    ensures var cs := ResponseTo(to, parent, kept).candidates;
            && |cs| == 1 && cs[0].nodeId == parent && cs[0].tier == 1
            && cs[0].allowCascade && cs[0].url == "relay"
  {
    hide MeshNodeScore;
    var own, node := NodeOf(to, TIER2, Online, ""), NodeOf(parent, TIER1, Online, kept);
    assert CascadeBandwidthLeft(node) == 9.0 && (9.0 / 4.0).Floor == 2;
    assert Offer(own, to, own) == None && Offer(node, to, own).Some?;
    var healthy := HealthyNodes(to, parent, kept);
    assert healthy[..1] == [own] && [own][..0] == [];
    assert Offers([], to, own) == [] && Offers([own], to, own) == [];
  }

  lemma ResponseIsBuilt(nodes: Nodes, to: NodeId, parent: NodeId, kept: NodeId)
    requires to != parent
    requires to in nodes && nodes[to] == NodeOf(to, TIER2, Online, "")
    ensures IsResponse(nodes, HealthyNodes(to, parent, kept), to, ResponseTo(to, parent, kept))
  {
    hide Offers;
    TheOnlyOffer(to, parent, kept);
    var cs := ResponseTo(to, parent, kept).candidates;
    assert IsSorting(cs, cs) && cs == FirstThree(cs);
    assert TopThree(cs, cs);
  }

  /** The selection has no other choice, and the method makes it the path. */
  lemma TheOnlyChoice(to: NodeId, parent: NodeId, kept: NodeId)
    requires to != parent
    ensures var me, resp := SelfOf(to), ResponseTo(to, parent, kept);
            && Picked(me, resp, FIRST) == Select(me, Informed(InitialState(me), resp), resp.candidates, FREE_LOCKS, 0)
            && StateOf(to, parent, kept).path.Some? && StateOf(to, parent, kept).path.value.nodeId == parent
  {
    hide Select, FinalScore, Offers;
    TheOnlyOffer(to, parent, kept);
    var me, resp := SelfOf(to), ResponseTo(to, parent, kept);
    var s1 := Informed(InitialState(me), resp);
    SelectIsBest(me, s1, resp.candidates, FREE_LOCKS, 0);
    assert Usable(s1.guard, resp.candidates[0], FREE_LOCKS(0));
  }

  // ----- one node adopts another -----

  lemma ChildAsks(run: seq<Action>, to: NodeId, parent: NodeId, kept: NodeId) returns (later: seq<Action>)
    requires ValidRun(run)
    ensures later == run + Opening(to, parent, kept)[..2] && ValidRun(later)
    ensures After(later).nodes == After(run).nodes && RequestOf(to, TIER2) in After(later).asked
    ensures After(later).agents == After(run).agents[to := Agent(TIER2, InitialMachine(SelfOf(to)))]
  {
    hide ValidRun, After, ResponseTo, HealthyNodes;
    var steps := Opening(to, parent, kept);
    RunStep(run, steps[0]);
    later := run + [steps[0]];
    RunStep(later, steps[1]);
    later := later + [steps[1]];
  }

  lemma ChildEnrols(run: seq<Action>, to: NodeId, parent: NodeId, kept: NodeId) returns (later: seq<Action>)
    requires ValidRun(run) && After(run).nodes == map[] && RequestOf(to, TIER2) in After(run).asked
    ensures later == run + Opening(to, parent, kept)[2..4] && ValidRun(later)
    ensures After(later).nodes == map[to := NodeOf(to, TIER2, Pending, "")]
    ensures After(later).agents == After(run).agents[to := Agent(TIER1, InitialMachine(SelfOf(to)))]
  {
    hide ValidRun, After, ResponseTo, HealthyNodes;
    var steps := Opening(to, parent, kept);
    RunStep(run, steps[2]);
    later := run + [steps[2]];
    RunStep(later, steps[3]);
    later := later + [steps[3]];
  }

  lemma ParentEnrols(run: seq<Action>, to: NodeId, parent: NodeId, kept: NodeId) returns (later: seq<Action>)
    requires ValidRun(run) && to != parent && AsksFor(After(run).agents, RequestOf(parent, TIER1))
    requires After(run).nodes == map[to := NodeOf(to, TIER2, Pending, "")]
    ensures later == run + Opening(to, parent, kept)[4..6] && ValidRun(later)
    ensures After(later).nodes
         == map[to := NodeOf(to, TIER2, Pending, ""), parent := NodeOf(parent, TIER1, Pending, "")]
    ensures After(later).agents == After(run).agents
  {
    hide ValidRun, After, ResponseTo, HealthyNodes;
    var steps := Opening(to, parent, kept);
    RunStep(run, steps[4]);
    later := run + [steps[4]];
    RunStep(later, steps[5]);
    later := later + [steps[5]];
  }

  lemma BothReport(run: seq<Action>, to: NodeId, parent: NodeId, kept: NodeId) returns (later: seq<Action>)
    requires ValidRun(run) && to != parent
    requires After(run).nodes
          == map[to := NodeOf(to, TIER2, Pending, ""), parent := NodeOf(parent, TIER1, Pending, "")]
    ensures later == run + Opening(to, parent, kept)[6..8] && ValidRun(later)
    ensures After(later).nodes
         == map[to := NodeOf(to, TIER2, Online, ""), parent := NodeOf(parent, TIER1, Online, kept)]
    ensures After(later).agents == After(run).agents
  {
    hide ValidRun, After, ResponseTo, HealthyNodes;
    var steps := Opening(to, parent, kept);
    RunStep(run, steps[6]);
    later := run + [steps[6]];
    RunStep(later, steps[7]);
    later := later + [steps[7]];
  }

  lemma ChildIsAnswered(run: seq<Action>, to: NodeId, parent: NodeId, kept: NodeId) returns (later: seq<Action>)
    requires ValidRun(run) && to != parent
    requires After(run).nodes
          == map[to := NodeOf(to, TIER2, Online, ""), parent := NodeOf(parent, TIER1, Online, kept)]
    requires to in After(run).agents && After(run).agents[to] == Agent(TIER1, InitialMachine(SelfOf(to)))
    ensures later == run + Opening(to, parent, kept)[8..] && ValidRun(later)
    ensures After(later).nodes == After(run).nodes
    ensures After(later).agents == After(run).agents[to := Agent(TIER1, Answered(to, parent, kept))]
  {
    hide ValidRun, After, ResponseTo, Next;
    var steps := Opening(to, parent, kept);
    ResponseIsBuilt(After(run).nodes, to, parent, kept);
    RunStep(run, steps[8]);
    later := run + [steps[8]];
    RunStep(later, steps[9]);
    later := later + [steps[9]];
  }

  function Answered(to: NodeId, parent: NodeId, kept: NodeId): Machine {
    Next(InitialMachine(SelfOf(to)), Turn(0, Receive(ResponseTo(to, parent, kept))))
  }

  lemma {:induction false} BeatsInRun(run: seq<Action>, id: NodeId, n: nat) returns (later: seq<Action>)
    requires ValidRun(run) && id in After(run).agents
    ensures later == run + BeatActions(id, n) && ValidRun(later)
    ensures After(later).nodes == After(run).nodes
    ensures After(later).agents
         == After(run).agents[id := After(run).agents[id].(m := Beats(After(run).agents[id].m, 0, FIRST, n))]
  {
    hide ValidRun, After, BeatStep;
    if n == 0 {
      later := run;
      assert run + BeatActions(id, 0) == run;
    } else {
      var front := BeatsInRun(run, id, n - 1);
      RunStep(front, Local(id, Turn(0, Beat(FIRST))));
      later := front + [Local(id, Turn(0, Beat(FIRST)))];
      assert BeatActions(id, n) == BeatActions(id, n - 1) + [Local(id, Turn(0, Beat(FIRST)))];
    }
  }

  lemma ChildAdopts(run: seq<Action>, to: NodeId, parent: NodeId, kept: NodeId) returns (later: seq<Action>)
    requires ValidRun(run) && to != parent
    requires to in After(run).agents && After(run).agents[to] == Agent(TIER1, Answered(to, parent, kept))
    ensures later == run + BeatActions(to, 11) && ValidRun(later)
    ensures After(later).nodes == After(run).nodes
    ensures After(later).agents == Adopted(After(run).agents, to, parent, kept)
  {
    hide ValidRun, After, ResponseTo, Updated, Beats, Picked, Select;
    later := BeatsInRun(run, to, 11);
    TheOnlyChoice(to, parent, kept);
    UpdateAlone(InitialMachine(SelfOf(to)), ResponseTo(to, parent, kept), FREE_LOCKS, 0, FIRST);
  }

  lemma BothAreRemoved(run: seq<Action>, to: NodeId, parent: NodeId) returns (later: seq<Action>)
    requires ValidRun(run) && After(run).nodes.Keys == {to, parent}
    ensures later == run + [Remove(to), Remove(parent)] && ValidRun(later)
    ensures After(later).nodes == map[] && After(later).agents == After(run).agents
  {
    hide ValidRun, After;
    RunStep(run, Remove(to));
    later := run + [Remove(to)];
    RunStep(later, Remove(parent));
    later := later + [Remove(parent)];
  }

  lemma Adopts(run: seq<Action>, to: NodeId, parent: NodeId, kept: NodeId) returns (later: seq<Action>)
    requires ValidRun(run) && After(run).nodes == map[] && to != parent
    requires parent in After(run).agents && After(run).agents[parent].flags == TIER1
    ensures later == run + Steps(to, parent, kept)
    ensures ValidRun(later) && After(later).nodes == map[]
    ensures After(later).agents == Adopted(After(run).agents, to, parent, kept)
  {
    hide ValidRun, After, Adopted, Opening, Answered, BeatActions;
    var waiting := ChildAsks(run, to, parent, kept);
    var enrolled := ChildEnrols(waiting, to, parent, kept);
    var both := ParentEnrols(enrolled, to, parent, kept);
    var reported := BothReport(both, to, parent, kept);
    var answered := ChildIsAnswered(reported, to, parent, kept);
    var adopted := ChildAdopts(answered, to, parent, kept);
    later := BothAreRemoved(adopted, to, parent);
    assert Adopted(After(answered).agents, to, parent, kept) == Adopted(After(run).agents, to, parent, kept) by {
      AdoptedForgets(After(reported).agents, to, parent, kept, After(answered).agents[to]);
      AdoptedForgets(After(waiting).agents, to, parent, kept, After(reported).agents[to]);
      AdoptedForgets(After(run).agents, to, parent, kept, After(waiting).agents[to]);
    }
  }

  lemma AdoptedForgets(agents: map<NodeId, Agent>, to: NodeId, parent: NodeId, kept: NodeId, agent: Agent)
    ensures Adopted(agents[to := agent], to, parent, kept) == Adopted(agents, to, parent, kept)
  {
  }

  // ----- two nodes adopt each other -----

  ghost predicate RegistersOnly(run: seq<Action>, a: NodeId, b: NodeId) {
    forall i | 0 <= i < |run| && run[i].Register? :: run[i].req.nodeId == a || run[i].req.nodeId == b
  }

  lemma StepsRegister(to: NodeId, parent: NodeId, kept: NodeId)
    ensures RegistersOnly(Steps(to, parent, kept), to, parent)
    ensures RegistersOnly(Steps(to, parent, kept), parent, to)
  {
    hide ResponseTo, HealthyNodes;
  }

  lemma JoinedRegister(run: seq<Action>, more: seq<Action>, a: NodeId, b: NodeId)
    requires RegistersOnly(run, a, b) && RegistersOnly(more, a, b)
    ensures RegistersOnly(run + more, a, b)
  {
  }

  lemma MovedRegistered(run: seq<Action>, a: NodeId, b: NodeId, id: NodeId)
    requires RegistersOnly(run, a, b) && Moved(run, id)
    ensures id == a || id == b
  {
    hide After;
    var i :| Enters(run, i, id, 1);
  }

  /** For any two nodes there is a run, of steps that the processes and the controller do take, in which
      no other node changes tiers and these two end up pulling from each other. */
  lemma AnyTwoCanClose(a: NodeId, b: NodeId) returns (run: seq<Action>)
    requires a != b
    ensures ValidRun(run) && RegistersOnly(run, a, b) && IsCycle(After(run), [a, b, a])
  {
    hide ValidRun, After, StateOf, Steps, RegistersOnly;
    EmptyRunIsValid();
    RunStep([], Start(SelfOf(b), TIER1));
    var start := [] + [Start(SelfOf(b), TIER1)];
    var once := Adopts(start, a, b, "");
    run := Adopts(once, b, a, b);
    TheOnlyChoice(a, b, "");
    TheOnlyChoice(b, a, b);
    assert RegistersOnly(start, a, b) by { StartRegisters(a, b); }
    StepsRegister(a, b, "");
    StepsRegister(b, a, b);
    JoinedRegister(start, Steps(a, b, ""), a, b);
    JoinedRegister(once, Steps(b, a, b), a, b);
    var walk := [a, b, a];
    assert UpstreamOf(After(run), a) == Some(b) && UpstreamOf(After(run), b) == Some(a);
    assert IsWalk(After(run), walk);
  }

  lemma StartRegisters(a: NodeId, b: NodeId)
    ensures RegistersOnly([] + [Start(SelfOf(b), TIER1)], a, b)
  {
  }

  /** Only these nodes are ever entered on both tiers. */
  ghost predicate OnlyMoves(run: seq<Action>, may: NodeId -> bool) {
    forall id | Moved(run, id) :: may(id)
  }

  /** If only certain nodes may change tiers between registrations, some run closes a cycle if and only if
      there are at least two of them. */
  lemma CyclesExactly(may: NodeId -> bool)
    ensures (exists run, walk :: ValidRun(run) && OnlyMoves(run, may) && IsCycle(After(run), walk))
       <==> (exists a, b :: a != b && may(a) && may(b))
  {
    hide ValidRun, After, Moved, IsCycle, RegistersOnly;
    if a, b :| a != b && may(a) && may(b) {
      var run := AnyTwoCanClose(a, b);
      forall id | Moved(run, id) ensures may(id) {
        MovedRegistered(run, a, b, id);
      }
      assert OnlyMoves(run, may) && IsCycle(After(run), [a, b, a]);
    }
    if run, walk :| ValidRun(run) && OnlyMoves(run, may) && IsCycle(After(run), walk) {
      CycleIsLong(After(run), walk);
      CycleTakesTwoMoves(run, walk);
      assert may(walk[0]) && may(walk[1]);
    }
  }

  lemma CycleIsLong(s: System, walk: seq<NodeId>)
    requires IsCycle(s, walk)
    ensures |walk| > 1
  {
  }
}
