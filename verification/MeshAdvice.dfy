/** What the registry holds, told by the run, and what makes an agent leave its upstream on advice. */
module MeshAdvice {
  import opened Options
  import opened CascadeSelector
  import opened SelectorTasks
  import opened NodeStore
  import opened Mesh
  import opened MeshProtocol

  // ----- the registry is told by what arrived -----

  /** The node is registered, and was before the last action. */
  ghost predicate Stayed(run: seq<Action>, id: NodeId) {
    run != [] && id in After(run).nodes && id in After(run[..|run| - 1]).nodes
  }

  /** The last heartbeat of a node since it was entered. */
  ghost function LastBeat(run: seq<Action>, id: NodeId): Option<HeartbeatRequest> {
    if !Stayed(run, id) then None
    else
      var a := run[|run| - 1];
      if a.HeartbeatArrives? && a.beat.nodeId == id then Some(a.beat) else LastBeat(run[..|run| - 1], id)
  }

  ghost function LastRequest(run: seq<Action>, id: NodeId): Option<RegisterRequest> {
    if run == [] then None
    else
      var a := run[|run| - 1];
      if a.Register? && a.req.nodeId == id then Some(a.req) else LastRequest(run[..|run| - 1], id)
  }

  /** The registration that entered the node. */
  ghost function EntryOf(run: seq<Action>, id: NodeId): Option<RegisterRequest> {
    if Stayed(run, id) then EntryOf(run[..|run| - 1], id)
    else if run != [] && run[|run| - 1].Register? && run[|run| - 1].req.nodeId == id then Some(run[|run| - 1].req)
    else None
  }

  /** The controller hears of the node. */
  predicate Contacts(a: Action, id: NodeId) {
    (a.Register? && a.req.nodeId == id) || (a.HeartbeatArrives? && a.beat.nodeId == id)
  }

  /** When the controller last heard of the node. */
  ghost function LastContact(run: seq<Action>, id: NodeId): Option<Time> {
    if run == [] then None
    else if Contacts(run[|run| - 1], id) then Some(run[|run| - 1].now)
    else LastContact(run[..|run| - 1], id)
  }

  ghost predicate FiguresOf(n: NodeInfo, beat: Option<HeartbeatRequest>) {
    match beat
    case None =>
      && n.bwUsed == 0 && n.lossRate == 0.0 && n.childrenCount == 0 && n.cascadeEgressBW == 0
      && n.currentUpstream == "" && n.onlineUsers == 0 && n.rtt == 0 && n.cascadeDepth == 0
    case Some(b) =>
      && n.bwUsed == b.bwUsed && n.lossRate == b.lossRate && n.childrenCount == b.childrenCount
      && n.cascadeEgressBW == b.cascadeEgressBW && n.currentUpstream == b.currentUpstream
      && n.onlineUsers == b.onlineUsers && n.rtt == b.rtt && n.cascadeDepth == b.cascadeDepth
  }

  ghost predicate AddressOf(n: NodeInfo, req: RegisterRequest) {
    && n.region == req.region && n.isp == req.isp && n.hasIpv6 == req.hasIpv6
    && n.cascadeUrl == req.cascadeUrl && n.ipv6Url == req.ipv6Url
  }

  /** In every run a registered node has the figures of its last heartbeat since it was entered, the address
      of its last registration, the cascade flags of the registration that entered it, and the time of the
      last of all of them. */
  lemma {:induction false} RegistryIsHistory(run: seq<Action>, id: NodeId)
    requires ValidRun(run) && id in After(run).nodes
    ensures var n := After(run).nodes[id];
            && FiguresOf(n, LastBeat(run, id))
            && LastRequest(run, id).Some? && AddressOf(n, LastRequest(run, id).value)
            && EntryOf(run, id).Some?
            && n.cascadeEnabled == EntryOf(run, id).value.cascadeEnabled
            && n.cascadeUpstream == EntryOf(run, id).value.cascadeUpstream
            && LastContact(run, id) == Some(n.lastHB)
  {
    hide IsResponse, IsHealthy, FiguresOf, AddressOf, Apply, Enabled;
    var front, a := run[..|run| - 1], run[|run| - 1];
    if id in After(front).nodes {
      RegistryIsHistory(front, id);
      NodeStays(After(front), a, id, LastBeat(front, id), LastRequest(front, id).value);
    } else {
      NodeEnters(After(front), a, id);
    }
  }

  /** What an action does to a node that stays registered. */
  lemma NodeStays(s: System, a: Action, id: NodeId, beat: Option<HeartbeatRequest>, req: RegisterRequest)
    requires Enabled(s, a) && id in s.nodes && id in Apply(s, a).nodes
    requires FiguresOf(s.nodes[id], beat) && AddressOf(s.nodes[id], req)
    ensures var n, n' := s.nodes[id], Apply(s, a).nodes[id];
            && FiguresOf(n', if a.HeartbeatArrives? && a.beat.nodeId == id then Some(a.beat) else beat)
            && AddressOf(n', if a.Register? && a.req.nodeId == id then a.req else req)
            && n'.cascadeEnabled == n.cascadeEnabled && n'.cascadeUpstream == n.cascadeUpstream
            && n'.lastHB == (if Contacts(a, id) then a.now else n.lastHB)
  {
    hide IsResponse, IsHealthy, AgentTurn;
  }

  lemma NodeEnters(s: System, a: Action, id: NodeId)
    requires Enabled(s, a) && id !in s.nodes && id in Apply(s, a).nodes
    ensures a.Register? && a.req.nodeId == id
    ensures var n := Apply(s, a).nodes[id];
            && FiguresOf(n, None) && AddressOf(n, a.req) && n.lastHB == a.now
            && n.cascadeEnabled == a.req.cascadeEnabled && n.cascadeUpstream == a.req.cascadeUpstream
  {
    hide IsResponse, IsHealthy, AgentTurn;
  }

  /** A cleanup of silent nodes leaves exactly those heard of within the timeout. */
  lemma SilentAreRemoved(run: seq<Action>, id: NodeId, timeout: Time, now: Time)
    requires ValidRun(run) && id in After(run).nodes
    ensures LastContact(run, id).Some?
    ensures id in After(run + [RemoveStale(timeout, now)]).nodes <==> LastContact(run, id).value >= now - timeout
  {
    hide IsResponse, LastContact, FiguresOf, AddressOf, LastBeat, LastRequest, EntryOf;
    RegistryIsHistory(run, id);
    RunStep(run, RemoveStale(timeout, now));
  }

  // ----- advice to leave -----

  /** Exactly then does a response tell its agent to leave at once: the last heartbeat before it named an
      upstream, and that is not registered. */
  lemma OfflineOfRun(run: seq<Action>, i: nat)
    requires ValidRun(run) && i < |run| && run[i].Respond?
    ensures ValidRun(run[..i])
    ensures OfflineAdvice(run[i].resp)
       <==> var beat := LastBeat(run[..i], run[i].to);
            beat.Some? && beat.value.currentUpstream != "" && beat.value.currentUpstream !in After(run[..i]).nodes
  {
    hide IsResponse, IsHealthy, LastBeat, After;
    PrefixIsValid(run, i);
    var a, s := run[i], After(run[..i]);
    assert IsResponse(s.nodes, a.healthy, a.to, a.resp);
    RequesterIsKnown(s.nodes, a.healthy, a.to, a.resp);
    RegistryIsHistory(run[..i], a.to);
    OfflineExactly(s.nodes, a.healthy, a.to, a.resp);
  }

  lemma {:induction false} PrefixIsValid(run: seq<Action>, i: nat)
    requires ValidRun(run) && i < |run|
    ensures ValidRun(run[..i]) && Enabled(After(run[..i]), run[i])
  {
    hide Enabled, After;
    if i < |run| - 1 {
      PrefixIsValid(run[..|run| - 1], i);
      assert run[..|run| - 1][..i] == run[..i];
    }
  }

  /** The controller answered `id` with this response at action i. */
  ghost predicate Answered(run: seq<Action>, id: NodeId, resp: MeshResponse, i: nat) {
    i < |run| && run[i].Respond? && run[i].to == id && run[i].resp == resp
  }

  lemma {:induction false} SentWasAnswered(run: seq<Action>, m: Message) returns (i: nat)
    requires ValidRun(run) && m in After(run).sent
    ensures Answered(run, m.to, m.resp, i)
  {
    hide IsResponse, IsHealthy, AgentTurn, Registered, HeartbeatApplied, StaleRemoved;
    var n := |run| - 1;
    if m in After(run[..n]).sent {
      i := SentWasAnswered(run[..n], m);
    } else {
      i := n;
    }
  }

  predicate IsForced(beat: Phase) {
    (beat.ToWrite? || beat.ToStamp? || beat.ToSet? || beat.ToRecord?) && beat.why.Forced?
  }

  /** The heartbeat task handles a response sent to it, and forces a switch only on advice. */
  ghost predicate OnAdvice(sent: set<Message>, id: NodeId, beat: Phase) {
    && (!beat.Idle? ==> Message(id, beat.resp) in sent)
    && (IsForced(beat) ==> OfflineAdvice(beat.resp))
  }

  lemma TurnKeepsAdvice(sent: set<Message>, id: NodeId, m: Machine, turn: Turn)
    requires OnAdvice(sent, id, m.beat)
    requires turn.move.Receive? ==> Message(id, turn.move.resp) in sent
    ensures OnAdvice(sent, id, Next(m, turn).beat)
  {
    hide Picked, Retain, JobStep, OfflineAdvice;
    match turn.move
    case Receive(_) =>
    case Beat(_) =>
    case Begin(_, _) =>
    case Work(task, rtt, pick) =>
      JobLeavesBeat(m, task, turn.now, rtt, pick);
  }

  lemma JobLeavesBeat(m: Machine, task: nat, now: Time, rtt: nat, pick: Pick)
    ensures JobStep(m, task, now, rtt, pick).beat == m.beat
  {
    hide Picked;
  }

  lemma {:induction false} AgentsActOnAdvice(run: seq<Action>, id: NodeId)
    requires ValidRun(run) && id in After(run).agents
    ensures OnAdvice(After(run).sent, id, After(run).agents[id].m.beat)
  {
    hide IsResponse, IsHealthy, OfflineAdvice, Next, Registered, HeartbeatApplied, StaleRemoved;
    var n := |run| - 1;
    var before := After(run[..n]);
    if run[n].Start? && run[n].me.nodeId == id {
      assert After(run).agents[id].m.beat.Idle?;
    } else {
      AgentsActOnAdvice(run[..n], id);
      if run[n].Deliver? && run[n].msg.to == id {
        TurnKeepsAdvice(before.sent, id, before.agents[id].m, Turn(run[n].now, Receive(run[n].msg.resp)));
      } else if run[n].Local? && run[n].id == id {
        TurnKeepsAdvice(before.sent, id, before.agents[id].m, run[n].turn);
      }
    }
  }

  /** In every run of the whole system: an agent that is forcing a switch was answered at a moment when its last
      heartbeat named an upstream that was not registered. */
  lemma ForcedHasCause(run: seq<Action>, id: NodeId) returns (i: nat)
    requires ValidRun(run) && id in After(run).agents && IsForced(After(run).agents[id].m.beat)
    ensures Answered(run, id, After(run).agents[id].m.beat.resp, i)
    ensures var beat := LastBeat(run[..i], id);
            beat.Some? && beat.value.currentUpstream != "" && beat.value.currentUpstream !in After(run[..i]).nodes
  {
    hide ValidRun, After, LastBeat, OfflineAdvice;
    AgentsActOnAdvice(run, id);
    i := SentWasAnswered(run, Message(id, After(run).agents[id].m.beat.resp));
    OfflineOfRun(run, i);
  }
}
