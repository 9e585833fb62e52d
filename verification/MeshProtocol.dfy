/** Controller and agents together: registrations, delayed responses, restarts and local failovers. */
module MeshProtocol {
  import opened Options
  import opened CascadeSelector
  import opened SelectorTasks
  import opened NodeStore
  import opened Mesh

  datatype Message = Message(to: NodeId, resp: MeshResponse)

  /** The cascade flags of an agent's configuration, fixed for the life of its process. */
  datatype Flags = Flags(cascadeEnabled: bool, cascadeUpstream: bool)

  /** A running process with the tasks of its selector. */
  datatype Agent = Agent(flags: Flags, m: Machine)

  /** The registry, every registration request and every response ever sent, and the running agents. What
      was sent stays in its set, so it may arrive late, out of order, more than once or never. */
  datatype System = System(nodes: Nodes, asked: set<RegisterRequest>, sent: set<Message>, agents: map<NodeId, Agent>)

  const INITIAL := System(map[], {}, {}, map[])

  datatype Action =
    | Start(me: Self, flags: Flags)         // an agent process starts; an earlier one is forgotten
    | Ask(req: RegisterRequest)             // a running agent sends a registration
    | Register(req: RegisterRequest, now: Time)
    | HeartbeatArrives(beat: HeartbeatRequest, now: Time)
    | Respond(to: NodeId, healthy: seq<NodeInfo>, resp: MeshResponse, now: Time)
    | SetStatus(id: NodeId, status: NodeStatus)
    | Remove(id: NodeId)
    | RemoveStale(timeout: Time, now: Time)
    | Deliver(msg: Message, now: Time)      // the heartbeat task takes up a response
    | Local(id: NodeId, turn: Turn)         // a step of any task of an agent

  /** An agent registers under its own name with the flags of its configuration. */
  predicate AsksFor(agents: map<NodeId, Agent>, req: RegisterRequest) {
    req.nodeId in agents && agents[req.nodeId].flags == Flags(req.cascadeEnabled, req.cascadeUpstream)
  }

  ghost predicate Enabled(s: System, a: Action) {
    match a
    case Ask(req) => AsksFor(s.agents, req)
    case Register(req, _) => req in s.asked
    case Respond(to, healthy, resp, now) =>
      && IsResponse(s.nodes, healthy, to, resp)
      && forall n | n in healthy :: n.nodeId in s.nodes && s.nodes[n.nodeId] == n && IsHealthy(n, now)
    case Deliver(msg, _) => msg in s.sent && msg.to in s.agents
    case Local(id, turn) => id in s.agents && !turn.move.Receive?
    case _ => true
  }

  function AgentTurn(agents: map<NodeId, Agent>, id: NodeId, turn: Turn): map<NodeId, Agent>
    requires id in agents
  {
    agents[id := agents[id].(m := Next(agents[id].m, turn))]
  }

  ghost function Apply(s: System, a: Action): System
    requires Enabled(s, a)
  {
    match a
    case Start(me, flags) => s.(agents := s.agents[me.nodeId := Agent(flags, InitialMachine(me))])
    case Ask(req) => s.(asked := s.asked + {req})
    case Register(req, now) => s.(nodes := Registered(s.nodes, req, now))
    case HeartbeatArrives(beat, now) => s.(nodes := HeartbeatApplied(s.nodes, beat, now))
    case Respond(to, healthy, resp, now) => s.(sent := s.sent + {Message(to, resp)})
    case SetStatus(id, status) =>
      if id in s.nodes then s.(nodes := s.nodes[id := s.nodes[id].(status := status)]) else s
    case Remove(id) => s.(nodes := s.nodes - {id})
    case RemoveStale(timeout, now) => s.(nodes := StaleRemoved(s.nodes, timeout, now))
    case Deliver(msg, now) => s.(agents := AgentTurn(s.agents, msg.to, Turn(now, Receive(msg.resp))))
    case Local(id, turn) => s.(agents := AgentTurn(s.agents, id, turn))
  }

  ghost predicate ValidRun(run: seq<Action>)
    decreases |run|, 0
  {
    run != [] ==> ValidRun(run[..|run| - 1]) && Enabled(After(run[..|run| - 1]), run[|run| - 1])
  }

  ghost function After(run: seq<Action>): System
    decreases |run|, 1
  {
    if run == [] || !ValidRun(run) then INITIAL
    else Apply(After(run[..|run| - 1]), run[|run| - 1])
  }

  lemma RunStep(run: seq<Action>, a: Action)
    requires ValidRun(run) && Enabled(After(run), a)
    ensures ValidRun(run + [a]) && After(run + [a]) == Apply(After(run), a)
  {
    assert (run + [a])[..|run|] == run;
  }

  lemma EmptyRunIsValid()
    ensures ValidRun([]) && After([]) == INITIAL
  {
  }

  // ----- entering the registry -----

  /** Action i registers a node that the registry does not hold, on this tier; a node it does hold keeps
      the flags it has. */
  ghost predicate Enters(run: seq<Action>, i: nat, id: NodeId, tier: int) {
    && i < |run|
    && run[i].Register?
    && run[i].req.nodeId == id
    && id !in After(run[..i]).nodes
    && tier == TierOf(run[i].req.cascadeEnabled, run[i].req.cascadeUpstream)
  }

  ghost predicate EnteredOn(run: seq<Action>, id: NodeId, tier: int) {
    exists i :: Enters(run, i, id, tier)
  }

  /** A node that was entered on both tiers. */
  ghost predicate Moved(run: seq<Action>, id: NodeId) {
    EnteredOn(run, id, 1) && EnteredOn(run, id, 2)
  }

  // ----- the invariant -----

  /** On which tiers a node may be entered. */
  type Placement = (NodeId, int) -> bool

  ghost predicate Follows(run: seq<Action>, on: Placement) {
    forall i, id, tier :: Enters(run, i, id, tier) ==> on(id, tier)
  }

  /** An upstream link goes from a node placed on tier 2 to another one placed on tier 1. */
  predicate Edge(on: Placement, id: NodeId, upstream: NodeId) {
    id != upstream && on(id, 2) && on(upstream, 1)
  }

  ghost predicate GoodResponse(on: Placement, id: NodeId, resp: MeshResponse) {
    forall i | 0 <= i < |resp.candidates| :: Edge(on, id, resp.candidates[i].nodeId)
  }

  ghost predicate GoodPath(on: Placement, id: NodeId, path: Option<Path>) {
    path.Some? ==> Edge(on, id, path.value.nodeId)
  }

  ghost predicate GoodPhase(on: Placement, id: NodeId, beat: Phase) {
    && (!beat.Idle? ==> GoodResponse(on, id, beat.resp))
    && (beat.ToCheck? || beat.ToCool? || beat.ToCount? || beat.ToWrite? ==> GoodPath(on, id, beat.next))
  }

  ghost predicate GoodJob(on: Placement, id: NodeId, job: Job) {
    && (job.Picking? ==> GoodResponse(on, id, job.resp))
    && (job.Writing? ==> GoodPath(on, id, job.next))
  }

  /** Every path an agent holds, wherever its tasks stand, is an edge. */
  ghost predicate GoodMachine(on: Placement, id: NodeId, m: Machine) {
    && GoodPath(on, id, m.s.path) && GoodPhase(on, id, m.beat)
    && (m.s.lastResponse.Some? ==> GoodResponse(on, id, m.s.lastResponse.value))
    && (forall task | task in m.jobs :: GoodJob(on, id, m.jobs[task]))
  }

  ghost predicate Inv(on: Placement, s: System) {
    && (forall id | id in s.nodes :: s.nodes[id].nodeId == id && on(id, ComputeTier(s.nodes[id])))
    && (forall m | m in s.sent :: GoodResponse(on, m.to, m.resp))
    && (forall id | id in s.agents :: GoodMachine(on, id, s.agents[id].m))
  }

  /** Whatever a selection reads, it ends in a candidate of the response it is made from. */
  lemma PickedIsEdge(on: Placement, id: NodeId, me: Self, resp: MeshResponse, pick: Pick)
    requires GoodResponse(on, id, resp)
    ensures GoodPath(on, id, Picked(me, resp, pick))
  {
    hide FinalScore, Edge;
    if Picked(me, resp, pick).Some? {
      assert Edge(on, id, resp.candidates[pick.i].nodeId);
    }
  }

  lemma BeatKeepsGood(on: Placement, id: NodeId, m: Machine, now: Time, pick: Pick)
    requires GoodMachine(on, id, m)
    ensures GoodMachine(on, id, BeatStep(m, now, pick))
  {
    hide Picked, GoodResponse, GoodJob, Edge, Retain;
    if m.beat.ToChoose? {
      PickedIsEdge(on, id, m.me, m.beat.resp, pick);
    }
  }

  lemma JobKeepsGood(on: Placement, id: NodeId, m: Machine, task: nat, now: Time, rtt: nat, pick: Pick)
    requires GoodMachine(on, id, m)
    ensures GoodMachine(on, id, JobStep(m, task, now, rtt, pick))
  {
    hide Picked, GoodResponse, GoodPhase, Edge;
    if JobOf(m, task).Picking? {
      PickedIsEdge(on, id, m.me, JobOf(m, task).resp, pick);
    }
  }

  lemma TurnKeepsGood(on: Placement, id: NodeId, m: Machine, turn: Turn)
    requires GoodMachine(on, id, m)
    requires turn.move.Receive? ==> GoodResponse(on, id, turn.move.resp)
    ensures GoodMachine(on, id, Next(m, turn))
  {
    hide BeatStep, JobStep, GoodResponse, Edge;
    match turn.move
    case Receive(_) =>
    case Beat(pick) =>
      BeatKeepsGood(on, id, m, turn.now, pick);
    case Begin(_, _) =>
    case Work(task, rtt, pick) =>
      JobKeepsGood(on, id, m, task, turn.now, rtt, pick);
  }

  lemma RespondIsGood(on: Placement, s: System, a: Action)
    requires Inv(on, s) && Enabled(s, a) && a.Respond?
    ensures GoodResponse(on, a.to, a.resp)
  {
    hide IsResponse, IsHealthy, GoodMachine;
    forall i | 0 <= i < |a.resp.candidates| ensures Edge(on, a.to, a.resp.candidates[i].nodeId) {
      var c := a.resp.candidates[i];
      ResponseIsToNode(s.nodes, a.healthy, a.to, a.resp);
      CandidatesAreLower(s.nodes, a.healthy, a.to, a.resp, c);
      var n :| n in a.healthy && n.nodeId == c.nodeId && ComputeTier(n) < ComputeTier(s.nodes[a.to]);
      assert s.nodes[c.nodeId] == n;
    }
  }

  lemma ResponseIsToNode(nodes: Nodes, healthy: seq<NodeInfo>, id: NodeId, resp: MeshResponse)
    requires IsResponse(nodes, healthy, id, resp)
    ensures id in nodes
  {
  }

  /** Registering keeps the flags of a known node and takes over those of an unknown one. */
  lemma RegistryStep(on: Placement, s: System, a: Action)
    requires Inv(on, s) && Enabled(s, a)
    requires a.Register? && a.req.nodeId !in s.nodes
         ==> on(a.req.nodeId, TierOf(a.req.cascadeEnabled, a.req.cascadeUpstream))
    ensures forall id | id in Apply(s, a).nodes ::
              Apply(s, a).nodes[id].nodeId == id && on(id, ComputeTier(Apply(s, a).nodes[id]))
  {
    hide IsResponse, IsHealthy, GoodResponse, GoodMachine, TierOf, AgentTurn;
  }

  lemma StepKeepsInv(on: Placement, s: System, a: Action)
    requires Inv(on, s) && Enabled(s, a)
    requires a.Register? && a.req.nodeId !in s.nodes
         ==> on(a.req.nodeId, TierOf(a.req.cascadeEnabled, a.req.cascadeUpstream))
    ensures Inv(on, Apply(s, a))
  {
    hide IsResponse, IsHealthy, GoodResponse, GoodMachine, Next, Registered, HeartbeatApplied, StaleRemoved, ComputeTier;
    RegistryStep(on, s, a);
    match a
    case Respond(to, healthy, resp, now) =>
      RespondIsGood(on, s, a);
    case Deliver(msg, now) =>
      TurnKeepsGood(on, msg.to, s.agents[msg.to].m, Turn(now, Receive(msg.resp)));
    case Start(me, _) =>
      NewIsGood(on, me);
    case Local(id, turn) =>
      TurnKeepsGood(on, id, s.agents[id].m, turn);
    case _ =>
  }

  lemma NewIsGood(on: Placement, me: Self)
    ensures GoodMachine(on, me.nodeId, InitialMachine(me))
  {
  }

  lemma {:induction false} RunKeepsInv(on: Placement, run: seq<Action>)
    requires ValidRun(run) && Follows(run, on)
    ensures Inv(on, After(run))
  {
    hide Inv, Apply;
    if run == [] {
      InitialInv(on);
    } else {
      var n := |run| - 1;
      PrefixFollows(run, on, n);
      RunKeepsInv(on, run[..n]);
      if run[n].Register? && run[n].req.nodeId !in After(run[..n]).nodes {
        assert Enters(run, n, run[n].req.nodeId, TierOf(run[n].req.cascadeEnabled, run[n].req.cascadeUpstream));
      }
      StepKeepsInv(on, After(run[..n]), run[n]);
    }
  }

  lemma PrefixFollows(run: seq<Action>, on: Placement, n: nat)
    requires Follows(run, on) && n <= |run|
    ensures Follows(run[..n], on)
  {
    hide After;
    forall i: nat, id, tier | Enters(run[..n], i, id, tier) ensures on(id, tier) {
      assert run[..n][..i] == run[..i];
      assert Enters(run, i, id, tier);
    }
  }

  lemma InitialInv(on: Placement)
    ensures Inv(on, INITIAL)
  {
  }

  // ----- cycles, and the way to the origin -----

  /** The agent that `id` pulls from; without one it pulls from the origin. */
  function UpstreamOf(s: System, id: NodeId): Option<NodeId> {
    if id in s.agents && s.agents[id].m.s.path.Some? then Some(s.agents[id].m.s.path.value.nodeId) else None
  }

  ghost predicate IsWalk(s: System, walk: seq<NodeId>) {
    && walk != []
    && forall k | 0 <= k < |walk| - 1 :: UpstreamOf(s, walk[k]) == Some(walk[k + 1])
  }

  ghost predicate IsCycle(s: System, walk: seq<NodeId>) {
    IsWalk(s, walk) && |walk| > 1 && walk[0] == walk[|walk| - 1]
  }

  /** In every run, an agent that pulls from another was entered on tier 2, the other one on tier 1. */
  lemma UpstreamWasEntered(run: seq<Action>, id: NodeId)
    requires ValidRun(run) && UpstreamOf(After(run), id).Some?
    ensures id != UpstreamOf(After(run), id).value
    ensures EnteredOn(run, id, 2) && EnteredOn(run, UpstreamOf(After(run), id).value, 1)
  {
    hide ValidRun, After, EnteredOn;
    ghost var on: Placement := EntriesOf(run);
    EntriesAreFollowed(run);
    RunKeepsInv(on, run);
  }

  ghost function EntriesOf(run: seq<Action>): Placement {
    (id, tier) => EnteredOn(run, id, tier)
  }

  lemma EntriesAreFollowed(run: seq<Action>)
    ensures Follows(run, EntriesOf(run))
  {
    hide Enters;
  }

  lemma StepOfWalk(run: seq<Action>, walk: seq<NodeId>, k: nat)
    requires ValidRun(run) && IsWalk(After(run), walk) && k < |walk| - 1
    ensures walk[k] != walk[k + 1] && EnteredOn(run, walk[k], 2) && EnteredOn(run, walk[k + 1], 1)
  {
    hide ValidRun, After, EnteredOn;
    assert UpstreamOf(After(run), walk[k]) == Some(walk[k + 1]);
    UpstreamWasEntered(run, walk[k]);
  }

  /** In every run, whatever is delayed, reordered, repeated or lost and whoever restarts: the first two
      nodes of a cycle are different, and both were entered on both tiers. */
  lemma CycleTakesTwoMoves(run: seq<Action>, walk: seq<NodeId>)
    requires ValidRun(run) && IsCycle(After(run), walk)
    ensures walk[0] != walk[1] && Moved(run, walk[0]) && Moved(run, walk[1])
  {
    hide ValidRun, After, EnteredOn;
    StepOfWalk(run, walk, 0);
    StepOfWalk(run, walk, |walk| - 2);
    StepOfWalk(run, walk, 1);
  }

  ghost predicate AtMostOneMoved(run: seq<Action>) {
    forall a, b | Moved(run, a) && Moved(run, b) :: a == b
  }

  /** So upstream links never close a cycle while at most one node was ever entered on both tiers, and a
      chain of agents has at most three nodes; without any such node, at most two. */
  lemma NoCycles(run: seq<Action>, walk: seq<NodeId>)
    requires ValidRun(run) && AtMostOneMoved(run) && IsWalk(After(run), walk)
    ensures forall j, k | 0 <= j < k < |walk| :: walk[j] != walk[k]
    ensures |walk| <= 3
    ensures |walk| == 3 ==> Moved(run, walk[1])
  {
    hide ValidRun, After, EnteredOn;
    forall j, k | 0 <= j < k < |walk| ensures walk[j] != walk[k] {
      if walk[j] == walk[k] {
        var loop := walk[j..k + 1];
        assert IsCycle(After(run), loop) by { PartOfWalk(After(run), walk, j, k + 1); }
        CycleTakesTwoMoves(run, loop);
      }
    }
    if |walk| >= 3 {
      MiddleMoved(run, walk, 1);
    }
    if |walk| >= 4 {
      MiddleMoved(run, walk, 2);
    }
  }

  lemma MiddleMoved(run: seq<Action>, walk: seq<NodeId>, k: nat)
    requires ValidRun(run) && IsWalk(After(run), walk) && 0 < k < |walk| - 1
    ensures Moved(run, walk[k])
  {
    hide ValidRun, After, EnteredOn;
    StepOfWalk(run, walk, k - 1);
    StepOfWalk(run, walk, k);
  }

  lemma PartOfWalk(s: System, walk: seq<NodeId>, j: nat, k: nat)
    requires IsWalk(s, walk) && j < k <= |walk|
    ensures IsWalk(s, walk[j..k])
  {
    var part := walk[j..k];
    forall i | 0 <= i < |part| - 1 ensures UpstreamOf(s, part[i]) == Some(part[i + 1]) {
      assert part[i] == walk[j + i] && part[i + 1] == walk[j + i + 1];
    }
  }

  /** Following upstreams reaches a node that pulls from the origin within `n` nodes. */
  predicate OriginWithin(s: System, id: NodeId, n: nat)
    decreases n
  {
    n > 0 && (UpstreamOf(s, id) == None || OriginWithin(s, UpstreamOf(s, id).value, n - 1))
  }

  lemma {:induction false} FarOriginMeansWalk(s: System, id: NodeId, n: nat) returns (walk: seq<NodeId>)
    requires !OriginWithin(s, id, n)
    ensures |walk| == n + 1 && walk[0] == id && IsWalk(s, walk)
    decreases n
  {
    if n == 0 {
      walk := [id];
    } else {
      var rest := FarOriginMeansWalk(s, UpstreamOf(s, id).value, n - 1);
      walk := [id] + rest;
      forall k | 0 <= k < |walk| - 1 ensures UpstreamOf(s, walk[k]) == Some(walk[k + 1]) {
        if k > 0 {
          assert UpstreamOf(s, rest[k - 1]) == Some(rest[k]);
        }
      }
    }
  }

  /** From every node, in every run with at most one node entered on both tiers, three nodes lead to the
      origin. If no node was, the node's own tier is enough: two, or one if it never was on tier 2. */
  lemma OriginReached(run: seq<Action>, id: NodeId)
    requires ValidRun(run) && AtMostOneMoved(run)
    ensures OriginWithin(After(run), id, 3)
    ensures (forall other :: !Moved(run, other))
        ==> OriginWithin(After(run), id, if EnteredOn(run, id, 2) then 2 else 1)
  {
    hide ValidRun, After, EnteredOn, OriginWithin, Moved;
    var s := After(run);
    if !OriginWithin(s, id, 3) {
      var walk := FarOriginMeansWalk(s, id, 3);
      NoCycles(run, walk);
    }
    if forall other :: !Moved(run, other) {
      if !OriginWithin(s, id, 2) {
        var walk := FarOriginMeansWalk(s, id, 2);
        NoCycles(run, walk);
      }
      if !OriginWithin(s, id, 1) {
        var walk := FarOriginMeansWalk(s, id, 1);
        StepOfWalk(run, walk, 0);
      }
    }
  }
}
