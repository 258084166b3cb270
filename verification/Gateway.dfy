/** The gateway's writes: the choice of a target, the fallback and the replica copy.

The program runs one request from its first post to its last; the protocol splits the same request
into the steps `Begin` and `End`. The methods here have the program's form and are proved to post
exactly what those two steps post, in that order.
*/
module Gateway {
  import opened Base
  import opened Ring
  import opened Protocol
  import Health

  datatype ClientAnswer =
    | EmptyKey
    | NoNodes
    | StoredAt(servedBy: string, isFailover: bool)
    | BadGateway
    | DeletedBy(servedBy: string)

  /** What the gateway posts for a request, given whether the first post is answered. */
  ghost predicate Posts(x: Session, firstOk: bool, before: seq<Message>, after: seq<Message>) {
    && before < after && FirstPost(x) == multiset{after[|before|]}
    && multiset(after[|before| + 1..]) == if firstOk then AfterOk(x) else AfterError(x)
  }

  lemma PostsOne(x: Session, firstOk: bool, before: seq<Message>, m: Message)
    requires FirstPost(x) == multiset{m} && (if firstOk then AfterOk(x) else AfterError(x)) == multiset{}
    ensures Posts(x, firstOk, before, before + [m])
  {
  }

  lemma PostsTwo(x: Session, firstOk: bool, before: seq<Message>, m: Message, m': Message)
    requires FirstPost(x) == multiset{m} && (if firstOk then AfterOk(x) else AfterError(x)) == multiset{m'}
    ensures Posts(x, firstOk, before, before + [m] + [m'])
  {
  }

  /** The set was posted to the node. */
  ghost predicate PostedTo(before: seq<Message>, after: seq<Message>, node: string, key: string, value: string,
                           ttl: int)
  {
    exists i :: |before| <= i < |after| && after[i].to.nodeId == node
      && after[i] == SetMsg(after[i].to, key, value, ttl)
  }

  lemma PostedAt(before: seq<Message>, after: seq<Message>, i: nat, to: NodeTarget, key: string, value: string,
                 ttl: int)
    requires |before| <= i < |after| && after[i] == SetMsg(to, key, value, ttl)
    ensures PostedTo(before, after, to.nodeId, key, value, ttl)
  {
  }

  /** What the client is told, given which posts were answered: the node that took the set, and whether it
      was not the primary. */
  function SetAnswer(targets: seq<NodeTarget>, diverted: bool, firstOk: bool, secondOk: bool): ClientAnswer
    requires targets != [] && (diverted ==> |targets| > 1)
  {
    if firstOk then StoredAt(Destination(targets, diverted).nodeId, diverted)
    else if |targets| > 1 && !diverted && secondOk then StoredAt(targets[1].nodeId, true)
    else BadGateway
  }

  /** The set is a failover exactly when the second node took it and not the first. */
  predicate ServedBy(targets: seq<NodeTarget>, node: string, isFailover: bool) {
    if isFailover then |targets| > 1 && node == targets[1].nodeId else |targets| > 0 && node == targets[0].nodeId
  }

  class Gateway {
    const healthMonitor: Health.Monitor
    /** The lists that `GetNodes` of the gateway's ring returns. */
    var routes: Cluster
    var sent: seq<Message>

    constructor (monitor: Health.Monitor, lists: Cluster)
      ensures healthMonitor == monitor && routes == lists && sent == []
    {
      healthMonitor, routes, sent := monitor, lists, [];
    }

    ghost predicate PrimaryFailed(key: string)
      reads this, healthMonitor
    {
      && Nodes(routes, key, 2) != []
      && Health.StateOf(healthMonitor.members, Nodes(routes, key, 2)[0].nodeId) == Some(Health.Failed)
    }

    /** The node that serves a write, and whether that is a failover. */
    method ChooseTarget(targets: seq<NodeTarget>) returns (dest: NodeTarget, isFailover: bool)
      requires targets != []
      ensures var failed := Health.StateOf(healthMonitor.members, targets[0].nodeId) == Some(Health.Failed);
              isFailover == Diverts(targets, failed) && dest == Destination(targets, isFailover)
    {
      var primary := targets[0];
      dest := primary;
      isFailover := false;
      var state := healthMonitor.GetNodeState(primary.nodeId);
      if state.Some? && state.value == Health.Failed {
        if |targets| > 1 {
          dest := targets[1];
          isFailover := true;
        }
      }
    }

    method HandleAPISet(key: string, value: string, ttlSeconds: int, firstOk: bool, secondOk: bool)
      returns (answer: ClientAnswer)
      modifies this`sent
      ensures var x := NewSet(routes, key, value, ttlSeconds, PrimaryFailed(key));
              if key == "" then answer.EmptyKey? && sent == old(sent)
              else if x.targets == [] then answer.NoNodes? && sent == old(sent)
              else Posts(x, firstOk, old(sent), sent) && answer == SetAnswer(x.targets, x.diverted, firstOk, secondOk)
      ensures answer.StoredAt? ==> PostedTo(old(sent), sent, answer.servedBy, key, value, ttlSeconds)
      ensures answer.StoredAt? ==> ServedBy(Nodes(routes, key, 2), answer.servedBy, answer.isFailover)
      ensures answer.BadGateway? <==>
              key != "" && Nodes(routes, key, 2) != [] && !firstOk
              && (!secondOk || |Nodes(routes, key, 2)| < 2 || PrimaryFailed(key))
    {
      if key == "" {
        return EmptyKey;
      }
      var targets := Nodes(routes, key, 2);
      if |targets| == 0 {
        return NoNodes;
      }
      var dest, isFailover := ChooseTarget(targets);
      ghost var x := NewSet(routes, key, value, ttlSeconds, PrimaryFailed(key));
      ghost var before := sent;
      var first := SetMsg(dest, key, value, ttlSeconds);
      sent := sent + [first];
      if !firstOk {
        if |targets| > 1 && !isFailover {
          var replica := targets[1];
          var second := SetMsg(replica, key, value, ttlSeconds);
          sent := sent + [second];
          PostsTwo(x, firstOk, before, first, second);
          if secondOk {
            PostedAt(before, sent, |before| + 1, replica, key, value, ttlSeconds);
            return StoredAt(replica.nodeId, true);
          }
          return BadGateway;
        }
        PostsOne(x, firstOk, before, first);
        return BadGateway;
      }
      answer := StoredAt(dest.nodeId, isFailover);
      if |targets| > 1 && targets[1].addr != "" && targets[1].addr != dest.addr {
        var copy := SetMsg(targets[1], key, value, ttlSeconds);
        sent := sent + [copy];
        PostsTwo(x, firstOk, before, first, copy);
      } else {
        PostsOne(x, firstOk, before, first);
      }
      PostedAt(before, sent, |before|, dest, key, value, ttlSeconds);
    }

    /** A delete is reported as done by the primary, whatever the posts answer. */
    method HandleAPIDelete(key: string, firstOk: bool) returns (answer: ClientAnswer)
      modifies this`sent
      ensures var x := DeleteSession(key, Nodes(routes, key, 2));
              if key == "" then answer.EmptyKey? && sent == old(sent)
              else if x.targets == [] then answer.NoNodes? && sent == old(sent)
              else answer == DeletedBy(x.targets[0].nodeId) && Posts(x, firstOk, old(sent), sent)
    {
      if key == "" {
        return EmptyKey;
      }
      var targets := Nodes(routes, key, 2);
      if |targets| == 0 {
        return NoNodes;
      }
      ghost var x, before := DeleteSession(key, targets), sent;
      var first := DeleteMsg(targets[0], key);
      sent := sent + [first];
      if !firstOk && |targets| > 1 {
        var second := DeleteMsg(targets[1], key);
        sent := sent + [second];
        PostsTwo(x, firstOk, before, first, second);
      } else {
        PostsOne(x, firstOk, before, first);
      }
      answer := DeletedBy(targets[0].nodeId);
    }
  }
}
