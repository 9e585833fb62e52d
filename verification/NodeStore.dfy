/** The controller's node registry and its health rule. */
module NodeStore {
  import opened Options
  import opened CascadeSelector

  datatype NodeStatus = Online | Busy | Offline | Cooling | Pending

  /** A registered node; its two cascade URLs stand for the address fields they are built from. */
  datatype NodeInfo = NodeInfo(nodeId: NodeId, region: string, isp: string, hasIpv6: bool, cascadeUrl: string,
                               ipv6Url: string, bwUsed: int, bwLimit: int, lossRate: real, status: NodeStatus,
                               lastHB: Time, cascadeEnabled: bool, cascadeUpstream: bool, childrenCount: int,
                               cascadeEgressBW: int, currentUpstream: NodeId, effectiveWeight: real,
                               onlineUsers: int, rtt: int, cascadeDepth: int, consecutiveFails: int,
                               lastFailAt: Option<Time>)

  datatype RegisterRequest = RegisterRequest(nodeId: NodeId, region: string, isp: string, hasIpv6: bool,
                                             cascadeUrl: string, ipv6Url: string, bwLimit: int,
                                             cascadeEnabled: bool, cascadeUpstream: bool)

  datatype HeartbeatRequest = HeartbeatRequest(nodeId: NodeId, bwUsed: int, bwLimit: int, lossRate: real,
                                               childrenCount: int, cascadeEgressBW: int, currentUpstream: NodeId,
                                               onlineUsers: int, rtt: int, cascadeDepth: int)

  type Nodes = map<NodeId, NodeInfo>

  /** A known node keeps its cascade flags, weight and (unless offline) status when it registers again. */
  function Registered(nodes: Nodes, req: RegisterRequest, now: Time): Nodes {
    if req.nodeId in nodes then
      var known := nodes[req.nodeId];
      nodes[req.nodeId := known.(region := req.region, isp := req.isp, hasIpv6 := req.hasIpv6,
                                cascadeUrl := req.cascadeUrl, ipv6Url := req.ipv6Url, bwLimit := req.bwLimit,
                                lastHB := now, status := if known.status == Offline then Online else known.status)]
    else
      nodes[req.nodeId := NodeInfo(req.nodeId, req.region, req.isp, req.hasIpv6, req.cascadeUrl, req.ipv6Url,
                                   0, req.bwLimit, 0.0, Pending, now, req.cascadeEnabled, req.cascadeUpstream,
                                   0, 0, "", 0.5, 0, 0, 0, 0, None)]
  }

  function HeartbeatApplied(nodes: Nodes, req: HeartbeatRequest, now: Time): Nodes {
    if req.nodeId !in nodes then nodes
    else
      nodes[req.nodeId := nodes[req.nodeId].(bwUsed := req.bwUsed, bwLimit := req.bwLimit,
                                             lossRate := req.lossRate, lastHB := now, status := Online,
                                             childrenCount := req.childrenCount,
                                             cascadeEgressBW := req.cascadeEgressBW,
                                             currentUpstream := req.currentUpstream,
                                             onlineUsers := req.onlineUsers, rtt := req.rtt,
                                             cascadeDepth := req.cascadeDepth)]
  }

  function StaleRemoved(nodes: Nodes, timeout: Time, now: Time): Nodes {
    map id | id in nodes && now - nodes[id].lastHB <= timeout :: nodes[id]
  }

  predicate IsHealthy(n: NodeInfo, now: Time) {
    && !n.status.Offline? && !n.status.Cooling? && !n.status.Pending?
    && now - n.lastHB <= 15 * SECOND
    && !(n.bwLimit > 0 && n.bwUsed as real / n.bwLimit as real > 0.7)
    && n.lossRate <= 0.05
  }

  class MemoryStore {
    var nodes: Nodes

    constructor ()
      ensures nodes == map[]
    {
      nodes := map[];
    }

    method RegisterNode(req: RegisterRequest, now: Time)
      modifies this
      ensures nodes == Registered(old(nodes), req, now)
    {
      if req.nodeId in nodes {
        var existing := nodes[req.nodeId];
        existing := existing.(region := req.region, isp := req.isp, hasIpv6 := req.hasIpv6);
        existing := existing.(cascadeUrl := req.cascadeUrl, ipv6Url := req.ipv6Url, bwLimit := req.bwLimit);
        existing := existing.(lastHB := now);
        if existing.status == Offline {
          existing := existing.(status := Online);
        }
        nodes := nodes[req.nodeId := existing];
        return;
      }
      var node := NodeInfo(req.nodeId, req.region, req.isp, req.hasIpv6, req.cascadeUrl, req.ipv6Url,
                           0, req.bwLimit, 0.0, Pending, now, req.cascadeEnabled, req.cascadeUpstream,
                           0, 0, "", 0.5, 0, 0, 0, 0, None);
      nodes := nodes[req.nodeId := node];
    }

    method UpdateHeartbeat(req: HeartbeatRequest, now: Time) returns (registered: bool)
      modifies this
      ensures registered <==> req.nodeId in old(nodes)
      ensures nodes == HeartbeatApplied(old(nodes), req, now)
    {
      if req.nodeId !in nodes {
        return false;
      }
      var node := nodes[req.nodeId];
      node := node.(bwUsed := req.bwUsed, bwLimit := req.bwLimit, lossRate := req.lossRate);
      node := node.(onlineUsers := req.onlineUsers, rtt := req.rtt);
      node := node.(lastHB := now, status := Online);
      node := node.(cascadeDepth := req.cascadeDepth);
      node := node.(childrenCount := req.childrenCount, cascadeEgressBW := req.cascadeEgressBW,
                    currentUpstream := req.currentUpstream);
      nodes := nodes[req.nodeId := node];
      return true;
    }

    method RemoveStaleNodes(timeout: Time, now: Time) returns (removed: nat)
      modifies this
      ensures nodes == StaleRemoved(old(nodes), timeout, now)
      ensures removed == |old(nodes)| - |nodes|
    {
      removed := 0;
      var left := nodes.Keys;
      while left != {}
        invariant left <= old(nodes).Keys
        invariant nodes == map id | id in old(nodes) && (id in left || now - old(nodes)[id].lastHB <= timeout) ::
                             old(nodes)[id]
        invariant removed == |old(nodes)| - |nodes|
        decreases |left|
      {
        var id :| id in left;
        if now - nodes[id].lastHB > timeout {
          ghost var before := nodes;
          nodes := nodes - {id};
          assert nodes.Keys == before.Keys - {id};
          removed := removed + 1;
        }
        left := left - {id};
      }
    }

    method RemoveNode(id: NodeId) returns (ok: bool)
      modifies this
      ensures ok <==> id in old(nodes)
      ensures nodes == old(nodes) - {id}
    {
      ok := id in nodes;
      if ok {
        nodes := nodes - {id};
      }
    }

    method SetNodeStatus(id: NodeId, status: NodeStatus) returns (ok: bool)
      modifies this
      ensures ok <==> id in old(nodes)
      ensures nodes == if id in old(nodes) then old(nodes)[id := old(nodes)[id].(status := status)] else old(nodes)
    {
      ok := id in nodes;
      if ok {
        nodes := nodes[id := nodes[id].(status := status)];
      }
    }
  }

  // ----- what makes a node healthy -----

  lemma RatioExceeds(used: int, limit: int, tenths: int)
    requires limit > 0
    ensures used as real / limit as real > tenths as real / 10.0 <==> 10 * used > tenths * limit
  {
    var q, l := used as real / limit as real, limit as real;
    assert q * l == used as real;
    if q > tenths as real / 10.0 {
      assert (q - tenths as real / 10.0) * l > 0.0;
    } else {
      assert (tenths as real / 10.0 - q) * l >= 0.0;
    }
    assert tenths as real / 10.0 * l == (tenths * limit) as real / 10.0;
  }

  /** A healthy node is online or busy, was heard of in the last 15 seconds, uses at most 70% of its
      bandwidth and loses at most 5%. */
  lemma HealthFromNumbers(n: NodeInfo, now: Time)
    ensures IsHealthy(n, now)
       <==> && n.status in {Online, Busy}
            && n.lastHB >= now - 15 * SECOND
            && (n.bwLimit > 0 ==> 10 * n.bwUsed <= 7 * n.bwLimit)
            && n.lossRate <= 0.05
  {
    if n.bwLimit > 0 {
      RatioExceeds(n.bwUsed, n.bwLimit, 7);
    }
  }

  /** A node that has just reported is healthy for 15 seconds exactly if what it reported allows it, whatever
      state it was in. */
  lemma HealthAfterHeartbeat(nodes: Nodes, beat: HeartbeatRequest, now: Time, later: Time)
    requires beat.nodeId in nodes
    ensures IsHealthy(HeartbeatApplied(nodes, beat, now)[beat.nodeId], later)
       <==> && later <= now + 15 * SECOND
            && (beat.bwLimit > 0 ==> 10 * beat.bwUsed <= 7 * beat.bwLimit)
            && beat.lossRate <= 0.05
  {
    hide IsHealthy;
    HealthFromNumbers(HeartbeatApplied(nodes, beat, now)[beat.nodeId], later);
  }

  /** A registration alone makes a node healthy only if it was known, and neither pending nor cooling; one that
      was offline is back, on the load and loss it last reported. */
  lemma HealthAfterRegistration(nodes: Nodes, req: RegisterRequest, now: Time)
    ensures IsHealthy(Registered(nodes, req, now)[req.nodeId], now)
       <==> && req.nodeId in nodes
            && nodes[req.nodeId].status in {Online, Busy, Offline}
            && (req.bwLimit > 0 ==> 10 * nodes[req.nodeId].bwUsed <= 7 * req.bwLimit)
            && nodes[req.nodeId].lossRate <= 0.05
  {
    hide IsHealthy;
    HealthFromNumbers(Registered(nodes, req, now)[req.nodeId], now);
  }
}
