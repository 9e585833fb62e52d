/** The limiter and the score ratchet of every agent, whatever the controller and the network do. */
module MeshLimits {
  import opened Options
  import opened CascadeSelector
  import opened SelectorTasks
  import opened SelectorRuns
  import opened NodeStore
  import opened Mesh
  import opened MeshProtocol

  /** The steps that the tasks of an agent's current process have taken. */
  ghost function TurnsOf(run: seq<Action>, id: NodeId): seq<Turn> {
    if run == [] then []
    else
      var front := TurnsOf(run[..|run| - 1], id);
      match run[|run| - 1]
      case Start(me, _) => if me.nodeId == id then [] else front
      case Deliver(msg, now) => if msg.to == id then front + [Turn(now, Receive(msg.resp))] else front
      case Local(other, turn) => if other == id then front + [turn] else front
      case _ => front
  }

  /** The selector's history in the current process of an agent. */
  ghost function HistoryOf(run: seq<Action>, id: NodeId): History
    requires id in After(run).agents
  {
    RunOf(After(run).agents[id].m.me, TurnsOf(run, id))
  }

  lemma NextTurn(me: Self, turns: seq<Turn>, t: Turn)
    ensures RunOf(me, turns + [t]).m == Next(RunOf(me, turns).m, t)
  {
    hide Next, EffectOf;
    assert (turns + [t])[..|turns|] == turns;
  }

  /** The tasks of every agent stand where those of a run of its selector since it started do. */
  lemma {:induction false} MachineIsHistory(run: seq<Action>, id: NodeId)
    requires ValidRun(run) && id in After(run).agents
    ensures After(run).agents[id].m == HistoryOf(run, id).m
  {
    hide IsResponse, IsHealthy, RunOf, Next, Registered, HeartbeatApplied, StaleRemoved;
    var n := |run| - 1;
    var before := After(run[..n]);
    if run[n].Start? && run[n].me.nodeId == id {
      NoTurnsYet(run[n].me);
    } else {
      MachineIsHistory(run[..n], id);
      if run[n].Deliver? && run[n].msg.to == id {
        NextTurn(before.agents[id].m.me, TurnsOf(run[..n], id), Turn(run[n].now, Receive(run[n].msg.resp)));
        MeStays(before.agents[id].m, Turn(run[n].now, Receive(run[n].msg.resp)));
      } else if run[n].Local? && run[n].id == id {
        NextTurn(before.agents[id].m.me, TurnsOf(run[..n], id), run[n].turn);
        MeStays(before.agents[id].m, run[n].turn);
      }
    }
  }

  lemma MeStays(m: Machine, t: Turn)
    ensures Next(m, t).me == m.me
  {
    hide Picked, Retain;
  }

  lemma NoTurnsYet(me: Self)
    ensures RunOf(me, []).m == InitialMachine(me)
  {
  }

  // ----- what every response carries -----

  /** Responses of a controller whose nodes report no negative child counts satisfy what the score
      ratchet assumes of them. */
  lemma ResponsesAreBounded(s: System, a: Action)
    requires Enabled(s, a) && a.Respond?
    requires forall id | id in s.nodes :: s.nodes[id].childrenCount >= 0
    ensures BoundedResponse(a.resp)
  {
    hide IsHealthy, MeshNodeScore, CascadeBandwidthLeft;
    assert MinImprovement(a.resp) == 0.15;
    forall i | 0 <= i < |a.resp.candidates| ensures BoundedCandidate(a.resp.candidates[i]) {
      var c := a.resp.candidates[i];
      CandidatesAreLower(s.nodes, a.healthy, a.to, a.resp, c);
      TopThreeIsBest(a.resp.candidates, Offers(a.healthy, a.to, s.nodes[a.to]));
      OfferedFrom(a.healthy, a.to, s.nodes[a.to], c);
    }
  }

  /** No heartbeat reports a negative number of children; the agents send 0. */
  ghost predicate CountsChildren(run: seq<Action>) {
    forall i | 0 <= i < |run| && run[i].HeartbeatArrives? :: run[i].beat.childrenCount >= 0
  }

  lemma {:induction false} ChildrenAreCounted(run: seq<Action>)
    requires ValidRun(run) && CountsChildren(run)
    ensures forall id | id in After(run).nodes :: After(run).nodes[id].childrenCount >= 0
  {
    hide IsResponse, IsHealthy, AgentTurn;
    if run != [] {
      ChildrenAreCounted(run[..|run| - 1]);
    }
  }

  /** The policy is the controller's constant, and with sane child counts the response is bounded. */
  ghost predicate Standard(resp: MeshResponse, counted: bool) {
    resp.policy == Some(DEFAULT_POLICY) && (counted ==> BoundedResponse(resp))
  }

  lemma {:induction false} SentIsStandard(run: seq<Action>)
    requires ValidRun(run)
    ensures forall m | m in After(run).sent :: Standard(m.resp, CountsChildren(run))
  {
    hide IsHealthy, BoundedResponse, AgentTurn, Registered, HeartbeatApplied, StaleRemoved, TopThree;
    if run != [] {
      var n := |run| - 1;
      SentIsStandard(run[..n]);
      if run[n].Respond? && CountsChildren(run) {
        ChildrenAreCounted(run[..n]);
        ResponsesAreBounded(After(run[..n]), run[n]);
      }
    }
  }

  lemma {:induction false} TurnsAreStandard(run: seq<Action>, id: NodeId)
    requires ValidRun(run)
    ensures forall i | 0 <= i < |TurnsOf(run, id)| && TurnsOf(run, id)[i].move.Receive? ::
              Standard(TurnsOf(run, id)[i].move.resp, CountsChildren(run))
  {
    hide Standard, After;
    if run != [] {
      var n := |run| - 1;
      TurnsAreStandard(run[..n], id);
      SentIsStandard(run[..n]);
      StandardLasts(run);
      if run[n].Deliver? {
        assert Enabled(After(run[..n]), run[n]);
      } else if run[n].Local? {
        assert Enabled(After(run[..n]), run[n]);
      }
    }
  }

  lemma StandardLasts(run: seq<Action>)
    requires run != []
    ensures CountsChildren(run) ==> CountsChildren(run[..|run| - 1])
    ensures forall resp :: Standard(resp, CountsChildren(run[..|run| - 1])) ==> Standard(resp, CountsChildren(run))
  {
    hide BoundedResponse;
  }

  // ----- the deployed system -----

  /** No agent, in any run of the whole system, leaves one upstream for another by its own choice more
      than three times in 300 seconds; its clock must not run backwards. */
  lemma SystemWindowLimit(run: seq<Action>, id: NodeId, from: Time)
    requires ValidRun(run) && id in After(run).agents && Monotone(TurnsOf(run, id))
    ensures CountIn(HistoryOf(run, id).voluntary, from, 300 * SECOND) <= 3
  {
    hide ValidRun, After, RunOf, TurnsOf, BoundedResponse, CountIn;
    TurnsAreStandard(run, id);
    WindowLimit(After(run).agents[id].m.me, TurnsOf(run, id), 30, 3, from);
  }

  /** Nor does it ever do so more than 41 times, plus those it takes to climb from a negative score,
      without its path being reset. */
  lemma SystemFiniteFlapping(run: seq<Action>, id: NodeId)
    requires ValidRun(run) && id in After(run).agents && CountsChildren(run)
    ensures var h := HistoryOf(run, id); h.streak <= StepsToZero(h.base) + 41
  {
    hide ValidRun, After, RunOf, TurnsOf, BoundedResponse, StepsToZero;
    TurnsAreStandard(run, id);
    FiniteFlapping(After(run).agents[id].m.me, TurnsOf(run, id));
  }
}
