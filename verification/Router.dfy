/** Health-aware reads with failover to the replica. */
module Router {
  import opened Base
  import opened Ring
  import opened RingOrder
  import Health

  type NodeState = Health.NodeState

  /** A hit that a node answers. */
  datatype Reply = Reply(key: string, value: string, ttlRemaining: int, version: int)

  datatype ReadResult =
    | Served(reply: Reply, servedBy: NodeTarget, isFailover: bool, primaryNode: string, primaryState: NodeState)
    | NoHealthyNodes
    | ReadFailed(primaryNode: string, primaryState: NodeState)

  /** What a request to an address yields: nothing when it is unreachable or does not answer a hit. */
  type Network = string -> Option<Reply>

  // ---------------------------------------------------------------- specification

  /** A node without an entry counts as alive. */
  function StateIn(members: Health.Members, id: string): NodeState {
    if id in members then members[id].state else Health.Alive
  }

  /** Who may answer, in order: an alive primary, then a replica that has not failed. The flag tells
      a failover. */
  function Candidates(targets: seq<NodeTarget>, members: Health.Members): seq<(NodeTarget, bool)> {
    (if |targets| > 0 && StateIn(members, targets[0].nodeId) == Health.Alive then [(targets[0], false)] else [])
    + (if |targets| > 1 && StateIn(members, targets[1].nodeId) != Health.Failed then [(targets[1], true)] else [])
  }

  /** The first candidate that answers a hit serves the read. */
  function FirstAnswer(candidates: seq<(NodeTarget, bool)>, net: Network): Option<(NodeTarget, bool, Reply)> {
    if candidates == [] then None
    else
      match net(candidates[0].0.addr)
      case Some(reply) => Some((candidates[0].0, candidates[0].1, reply))
      case None => FirstAnswer(candidates[1..], net)
  }

  function Route(targets: seq<NodeTarget>, members: Health.Members, net: Network): ReadResult {
    if targets == [] then NoHealthyNodes
    else
      match FirstAnswer(Candidates(targets, members), net)
      case Some((node, failover, reply)) =>
        Served(reply, node, failover, targets[0].nodeId, StateIn(members, targets[0].nodeId))
      case None => ReadFailed(targets[0].nodeId, StateIn(members, targets[0].nodeId))
  }

  /** The nested decision of the program picks the first candidate that answers. */
  lemma RouteCases(targets: seq<NodeTarget>, members: Health.Members, net: Network)
    requires targets != []
    ensures var primary := targets[0];
            var direct := StateIn(members, primary.nodeId) == Health.Alive && net(primary.addr).Some?;
            var failover := |targets| > 1 && StateIn(members, targets[1].nodeId) != Health.Failed
              && net(targets[1].addr).Some?;
            Route(targets, members, net) ==
            if direct then Served(net(primary.addr).value, primary, false, primary.nodeId,
                                  StateIn(members, primary.nodeId))
            else if failover then Served(net(targets[1].addr).value, targets[1], true, primary.nodeId,
                                         StateIn(members, primary.nodeId))
            else ReadFailed(primary.nodeId, StateIn(members, primary.nodeId))
  {
    var cs := Candidates(targets, members);
    assert FirstAnswer([], net) == None;
    if |cs| > 1 {
      assert cs[1..] == [cs[1]];
      assert [cs[1]][1..] == [];
      assert FirstAnswer([cs[1]], net).Some? <==> net(cs[1].0.addr).Some?;
    } else if |cs| == 1 {
      assert cs[1..] == [];
    }
  }

  // ---------------------------------------------------------------- the router as the program keeps it

  class Router {
    const hashRing: HashRing
    const healthMonitor: Health.Monitor
    var totalRouted: nat
    var directHits: nat
    var failoverHits: nat
    var failures: nat

    /** Every completed request was counted once as a direct hit, a failover hit or a failure. */
    ghost predicate Valid()
      reads this
    {
      totalRouted == directHits + failoverHits + failures
    }

    constructor (ring: HashRing, monitor: Health.Monitor)
      ensures Valid() && totalRouted == 0
      ensures hashRing == ring && healthMonitor == monitor
    {
      hashRing, healthMonitor := ring, monitor;
      totalRouted, directHits, failoverHits, failures := 0, 0, 0, 0;
    }

    /** A replica that is marked FAILED is not asked. */
    method AskReplica(replica: NodeTarget, net: Network) returns (reply: Option<Reply>)
      ensures reply ==
              if StateIn(healthMonitor.members, replica.nodeId) != Health.Failed then net(replica.addr) else None
    {
      var replicaState := healthMonitor.GetNodeState(replica.nodeId);
      if replicaState.None? || replicaState.value != Health.Failed {
        return net(replica.addr);
      }
      reply := None;
    }

    method RouteGet(key: string, net: Network) returns (r: ReadResult)
      requires Valid() && hashRing.Valid()
      modifies this
      ensures Valid()
      ensures r == Route(TargetsIn(NodesFor(hashRing.P(), hashRing.View(), key, 2)), healthMonitor.members, net)
      ensures totalRouted == old(totalRouted) + 1
      ensures directHits == old(directHits) + (if r.Served? && !r.isFailover then 1 else 0)
      ensures failoverHits == old(failoverHits) + (if r.Served? && r.isFailover then 1 else 0)
    {
      totalRouted := totalRouted + 1;
      var lookup := hashRing.GetNodes(key, 2);
      if lookup.NoNodesInRing? || |lookup.value| == 0 {
        failures := failures + 1;
        return NoHealthyNodes;
      }
      var targets := lookup.value;
      RouteCases(targets, healthMonitor.members, net);
      var primary := targets[0];
      var known := healthMonitor.GetNodeState(primary.nodeId);
      var primaryState := if known.None? then Health.Alive else known.value;
      if primaryState == Health.Alive {
        var reply := net(primary.addr);
        if reply.Some? {
          directHits := directHits + 1;
          return Served(reply.value, primary, false, primary.nodeId, primaryState);
        }
      }
      if |targets| > 1 {
        var reply := AskReplica(targets[1], net);
        if reply.Some? {
          failoverHits := failoverHits + 1;
          return Served(reply.value, targets[1], true, primary.nodeId, primaryState);
        }
      }
      failures := failures + 1;
      r := ReadFailed(primary.nodeId, primaryState);
    }
  }

  // ---------------------------------------------------------------- what routing guarantees

  /** In the monitor's terms: the primary serves the read if it is ALIVE, or unknown to the monitor, and answers;
      else the replica does if it is not FAILED and answers; else the read fails. The reply is passed on as it came,
      with the primary's name and state. */
  lemma ReadsFollowTheMonitor(targets: seq<NodeTarget>, members: Health.Members, net: Network)
    requires targets != []
    ensures var (p, r) := (targets[0], Route(targets, members, net));
            var direct := Health.StateOf(members, p.nodeId) in {None, Some(Health.Alive)} && net(p.addr).Some?;
            var failover := |targets| > 1 && net(targets[1].addr).Some?
              && Health.StateOf(members, targets[1].nodeId) != Some(Health.Failed);
            && (r.Served? <==> direct || failover) && (r.ReadFailed? <==> !direct && !failover)
            && (direct ==> r.servedBy == p && !r.isFailover && Some(r.reply) == net(p.addr))
            && (!direct && failover ==>
                  r.servedBy == targets[1] && r.isFailover && Some(r.reply) == net(targets[1].addr))
            && r.primaryNode == p.nodeId
            && Some(r.primaryState) == (if p.nodeId in members then Health.StateOf(members, p.nodeId)
                                        else Some(Health.Alive))
  {
    RouteCases(targets, members, net);
  }

  /** A read fails exactly when no candidate answers a hit: one usable owner is enough. */
  lemma FailsOnlyWithoutAnswer(targets: seq<NodeTarget>, members: Health.Members, net: Network)
    ensures !Route(targets, members, net).Served? <==>
            forall candidate :: candidate in Candidates(targets, members) ==> net(candidate.0.addr).None?
  {
    if targets != [] {
      RouteCases(targets, members, net);
      var cs := Candidates(targets, members);
      if StateIn(members, targets[0].nodeId) == Health.Alive {
        assert cs[0] == (targets[0], false);
        assert cs[0] in cs;
      }
      if |targets| > 1 && StateIn(members, targets[1].nodeId) != Health.Failed {
        assert cs[|cs| - 1] == (targets[1], true);
        assert cs[|cs| - 1] in cs;
      }
    }
  }

  /** A read that fails over is served by the node that would own the key if its primary were removed
      from the ring, and a direct read by its owner. */
  lemma FailoverServesTheHeir(p: Params, ring: RingState, key: string, members: Health.Members, net: Network)
    requires Canon(p, ring) && p.vnodes > 0
    ensures var targets := TargetsIn(NodesFor(p, ring, key, 2));
            var r := Route(targets, members, net);
            r.Served? ==>
              && targets != []
              && (!r.isFailover ==> r.servedBy == targets[0])
              && (r.isFailover ==> NodesFor(p, Remove(ring, targets[0].nodeId), key, 1) == Found([r.servedBy]))
  {
    var targets := TargetsIn(NodesFor(p, ring, key, 2));
    if targets != [] {
      RouteCases(targets, members, net);
      if |targets| > 1 {
        HeirIsReplica(p, ring, key);
      }
    }
  }

  /** Removing the primary makes the second node of the list the primary, with the address it had. */
  lemma HeirIsReplica(p: Params, ring: RingState, key: string)
    requires Canon(p, ring) && p.vnodes > 0 && |TargetsIn(NodesFor(p, ring, key, 2))| > 1
    ensures var targets := TargetsIn(NodesFor(p, ring, key, 2));
            NodesFor(p, Remove(ring, targets[0].nodeId), key, 1) == Found([targets[1]])
  {
    var ids := Preference(p, ring, key);
    ReplicaInheritsKeys(p, ring, key);
    RemovalKeepsAddresses(ring, ids[0], ids[1]) by {
      PreferenceIsClockwise(p, ring, key);
      RankedDistinct(Distance(p, HashOf(p, key)), ids);
    }
    FirstNode(p, Remove(ring, ids[0]), key);
  }

  lemma FirstNode(p: Params, ring: RingState, key: string)
    requires |Preference(p, ring, key)| > 0
    ensures NodesFor(p, ring, key, 1) == Found([Target(ring, Preference(p, ring, key)[0])])
  {
    var ids := Preference(p, ring, key);
    assert Take(ids, 1) == [ids[0]];
    assert ring.tokens != [];
    assert Targets(ring, [ids[0]]) == [Target(ring, ids[0])];
  }
}
