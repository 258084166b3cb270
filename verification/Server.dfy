/** The handlers of a storage node, with the objects they share.

Each handler is proved equal to the protocol step of the same name: the cache it leaves behind and
the messages its goroutines will send.
*/
module Server {
  import opened Base
  import opened Ring
  import opened Cache
  import opened Protocol
  import Detector

  // ---------------------------------------------------------------- the replicator

  /** How a post ends: it cannot be built, the peer is unreachable, or a status comes back. */
  datatype PostResult = NotBuilt | Unreachable | Status(code: nat)

  class Replicator {
    var total: nat
    var successes: nat
    var failures: nat

    ghost predicate Valid()
      reads this
    {
      total == successes + failures
    }

    constructor ()
      ensures Valid() && total == 0
    {
      total, successes, failures := 0, 0, 0;
    }

    /** The payload carries whole seconds, and the version of the sender. */
    method ReplicateSet(replica: NodeTarget, key: string, value: string, ttl: int, version: Version, result: PostResult)
      returns (sent: Option<Message>, ok: bool)
      requires Valid()
      modifies this
      ensures Valid() && total == old(total) + 1
      ensures sent ==
              if result.NotBuilt? then None
              else Some(ReplicateMsg(replica, key, value, PayloadSeconds(ttl), version))
      ensures ok <==> result == Status(200) || result == Status(201)
      ensures successes == old(successes) + (if ok then 1 else 0)
    {
      total := total + 1;
      var ttlSec := 0;
      if ttl > 0 {
        ttlSec := ttl / SECOND;
      }
      if result.NotBuilt? {
        failures := failures + 1;
        return None, false;
      }
      sent := Some(ReplicateMsg(replica, key, value, ttlSec, version));
      if result.Unreachable? {
        failures := failures + 1;
        return sent, false;
      }
      if result.code != 200 && result.code != 201 {
        failures := failures + 1;
        return sent, false;
      }
      successes := successes + 1;
      ok := true;
    }
  }

  // ---------------------------------------------------------------- the server

  datatype Answer =
    | EmptyKey
    | Done(version: Version, replicaNode: string)
    | Hit(item: Item, ttlRemaining: int, isHot: bool, count: nat)
    | Miss
    | Deleted
    | NotFound

  /** The replication of a set as the replicator will send it. */
  function Replication(replica: NodeTarget, item: Item, ttl: int): Message {
    ReplicateMsg(replica, item.key, item.value, PayloadSeconds(ttl), item.version)
  }

  /** The replica that an answer to a set names: none for a replica write or a key with a single owner. */
  function ReplicaNamed(targets: seq<NodeTarget>, isReplica: bool): string {
    if isReplica || |targets| < 2 then "" else targets[1].nodeId
  }

  class Server {
    const nodeId: string
    const cache: CacheStore
    const detector: Detector.HotKeyDetector
    /** The lists that `GetNodes` of the server's ring returns. */
    var routes: Cluster
    /** What the goroutines started so far send. */
    var sent: multiset<Message>

    constructor (id: string, c: CacheStore, d: Detector.HotKeyDetector, lists: Cluster)
      ensures nodeId == id && cache == c && detector == d && routes == lists && sent == multiset{}
    {
      nodeId, cache, detector, routes := id, c, d, lists;
      sent := multiset{};
    }

    // ---------------------------------------------------------------- goroutines

    /** Replicate a set if the replica is a different node. */
    method Propagate(targets: seq<NodeTarget>, item: Item, ttl: int)
      modifies this`sent
      ensures sent == old(sent) + SetSends(targets, nodeId, item, ttl)
    {
      if |targets| > 1 {
        var replica := targets[1];
        if replica.nodeId != nodeId && replica.addr != "" {
          sent := sent + multiset{Replication(replica, item, ttl)};
        }
      }
    }

    method PropagateDelete(targets: seq<NodeTarget>, key: string)
      modifies this`sent
      ensures sent == old(sent) + DeleteSends(targets, nodeId, key)
    {
      if |targets| > 1 {
        var replica := targets[1];
        if replica.nodeId != nodeId && replica.addr != "" {
          sent := sent + multiset{ReplicateDeleteMsg(replica, key)};
        }
      }
    }

    /** A hot key gets an extra replica on the third node of its list. */
    method Promote(targets: seq<NodeTarget>, item: Item, now: Time)
      modifies this`sent
      ensures sent == old(sent) + Promotion(targets, nodeId, item, now)
    {
      if |targets| > 2 {
        var extra := targets[2];
        if extra.nodeId != nodeId && extra.addr != "" {
          var ttl := 0;
          var ttlRemaining := TTLRemaining(item, now);
          if ttlRemaining > 0 {
            ttl := ttlRemaining * SECOND;
          }
          sent := sent + multiset{Replication(extra, item, ttl)};
        }
      }
    }

    // ---------------------------------------------------------------- handlers

    method HandleSet(key: string, value: string, ttlSeconds: int, version: Version, isReplica: bool, now: Time)
      returns (answer: Answer)
      modifies this`sent, cache`items, cache`setCount
      ensures var o := Protocol.HandleSet(Nodes(routes, key, 2), nodeId, old(cache.items), now, key, value,
                                          ttlSeconds, version, isReplica);
              cache.items == o.items && sent == old(sent) + o.sends
      ensures answer ==
              if Blank(key) then EmptyKey
              else Done(cache.items[key].version, ReplicaNamed(Nodes(routes, key, 2), isReplica))
    {
      var stored := value;
      if Blank(value) {
        stored := "";
      }
      if Blank(key) {
        return EmptyKey;
      }
      var ttl := 0;
      if ttlSeconds > 0 {
        ttl := ttlSeconds * SECOND;
      }
      var item := cache.SetWithMetadata(key, stored, ttl, version, isReplica, now);
      var replicaNode := "";
      if !isReplica {
        var targets := Nodes(routes, key, 2);
        if |targets| > 1 {
          replicaNode := targets[1].nodeId;
        }
        Propagate(targets, item, ttl);
      }
      answer := Done(item.version, replicaNode);
    }

    method HandleInternalReplicate(key: string, value: string, ttlSeconds: int, version: Version, now: Time)
      returns (answer: Answer)
      modifies cache`items, cache`setCount
      ensures cache.items == HandleReplicate(old(cache.items), now, key, value, ttlSeconds, version).items
      ensures answer == Done(cache.items[key].version, "")
    {
      var ttl := 0;
      if ttlSeconds > 0 {
        ttl := ttlSeconds * SECOND;
      }
      var item := cache.SetWithMetadata(key, value, ttl, version, true, now);
      answer := Done(item.version, "");
    }

    method HandleDelete(key: string) returns (answer: Answer)
      modifies this`sent, cache`items, cache`deleteCount
      ensures var o := Protocol.HandleDelete(Nodes(routes, key, 2), nodeId, old(cache.items), key);
              cache.items == o.items && sent == old(sent) + o.sends
      ensures answer == if Blank(key) then EmptyKey else if key in old(cache.items) then Deleted else NotFound
    {
      if Blank(key) {
        return EmptyKey;
      }
      var deleted := cache.Delete(key);
      PropagateDelete(Nodes(routes, key, 2), key);
      answer := if deleted then Deleted else NotFound;
    }

    method HandleInternalReplicateDelete(key: string) returns (answer: Answer)
      modifies cache`items, cache`deleteCount
      ensures cache.items == HandleReplicateDelete(old(cache.items), key).items
      ensures answer == if key == "" then EmptyKey else Deleted
    {
      if key == "" {
        return EmptyKey;
      }
      var _ := cache.Delete(key);
      answer := Deleted;
    }

    /** A read records the access only on a hit, and a hot key is promoted. */
    method HandleGet(key: string, now: Time, recheck: Time) returns (answer: Answer)
      requires now <= recheck
      modifies this`sent, cache`items, cache`hitCount, cache`missCount, cache`expiredCount, detector
      ensures answer.EmptyKey? <==> Blank(key)
      ensures answer.EmptyKey? ==> cache.items == old(cache.items) && sent == old(sent)
      ensures !answer.EmptyKey? ==>
                var o := Protocol.HandleGet(Nodes(routes, key, 3), nodeId, old(cache.items), now, key,
                                            answer.Hit? && answer.isHot);
                cache.items == o.items && sent == old(sent) + o.sends
      ensures answer.Hit? <==> !Blank(key) && Live(old(cache.items), key, now).Some?
      ensures answer.Hit? ==>
                && Some(answer.item) == Live(old(cache.items), key, now)
                && answer.ttlRemaining == TTLRemaining(answer.item, now)
                && detector.View() == Detector.Record(detector.config, old(detector.View()), key, now)
                && answer.count == Detector.RecordCount(detector.config, old(detector.View()), key, now)
                && answer.isHot == (answer.count >= detector.config.threshold)
      ensures !answer.Hit? ==> detector.View() == old(detector.View())
    {
      if Blank(key) {
        return EmptyKey;
      }
      var found := cache.Get(key, now, recheck);
      if found.None? {
        return Miss;
      }
      var item := found.value;
      var isHot, count := detector.RecordAccess(key, now);
      if isHot {
        Promote(Nodes(routes, key, 3), item, now);
      }
      answer := Hit(item, TTLRemaining(item, now), isHot, count);
    }
  }
}
