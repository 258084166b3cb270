/** Recovery and rebalancing: dumps, bulk ingestion, adoption of a peer's dump and key migration.

All of it happens at one instant, which callers pass in. The manager's ring is the value that the
methods of `HashRing` are proved to compute with.
*/
module Rebalance {
  import opened Base
  import opened Ring
  import opened Cache
  import opened Protocol

  // ---------------------------------------------------------------- specification

  ghost predicate Enumerated(items: Items, now: Time, keys: seq<string>) {
    && (forall k :: k in keys <==> k in items && Listed(items[k], now))
    && (forall i, j :: 0 <= i < j < |keys| ==> keys[i] != keys[j])
  }

  /** What is copied of `keys`: the items a read finds, among those that `picks` chooses. */
  function Dumped(items: Items, keys: seq<string>, picks: string -> bool, replicaFlag: Item -> bool,
                  now: Time): (d: seq<DumpItem>)
    ensures |d| <= |keys|
  {
    if keys == [] then []
    else
      var k := keys[|keys| - 1];
      var before := Dumped(items, keys[..|keys| - 1], picks, replicaFlag, now);
      match Live(items, k, now)
      case Some(item) => if picks(k) then before + [DumpOf(item, now, replicaFlag(item))] else before
      case None => before
  }

  /** Ingestion stores the items one after the other. */
  function Ingested(items: Items, dump: seq<DumpItem>, now: Time): Items {
    if dump == [] then items
    else HandleBulk(Ingested(items, dump[..|dump| - 1], now), now, dump[|dump| - 1]).items
  }

  /** The primary and the replica of a key. */
  function OwnersIn(p: Params, ring: RingState): string -> seq<NodeTarget> {
    key => TargetsIn(NodesFor(p, ring, key, 2))
  }

  predicate Leads(targets: seq<NodeTarget>, node: string) {
    |targets| > 0 && targets[0].nodeId == node
  }

  predicate Seconds(targets: seq<NodeTarget>, node: string) {
    |targets| > 1 && targets[1].nodeId == node
  }

  function LedBy(owners: string -> seq<NodeTarget>, node: string): string -> bool {
    key => Leads(owners(key), node)
  }

  function EveryKey(): string -> bool {
    (_: string) => true
  }

  /** A dump keeps the replica flag; a migrated key is sent as a primary copy. */
  function AsStored(): Item -> bool {
    (item: Item) => item.isReplica
  }

  function AsPrimary(): Item -> bool {
    (_: Item) => false
  }

  /** Adoption stores only items that the node is responsible for. */
  function Adopted(owners: string -> seq<NodeTarget>, node: string, items: Items, dump: seq<DumpItem>,
                   now: Time): Items
  {
    if dump == [] then items
    else
      var item := dump[|dump| - 1];
      HandleSync(owners(item.key), node, Adopted(owners, node, items, dump[..|dump| - 1], now), now, item).items
  }

  function AdoptedCount(owners: string -> seq<NodeTarget>, node: string, dump: seq<DumpItem>): nat {
    if dump == [] then 0
    else
      var targets := owners(dump[|dump| - 1].key);
      AdoptedCount(owners, node, dump[..|dump| - 1]) + if Leads(targets, node) || Seconds(targets, node) then 1 else 0
  }

  datatype Report = Report(addedNode: string, keysEvaluated: nat, keysMoved: nat, keysPerNode: map<string, int>)

  function ReportOf(id: string, self: string, evaluated: nat, moved: nat): Report {
    Report(id, evaluated, moved, map[id := moved, self := evaluated - moved])
  }

  // ---------------------------------------------------------------- the manager as the program keeps it

  class Manager {
    const selfNodeId: string
    const params: Params
    const cache: CacheStore
    var ring: RingState
    var reports: seq<Report>

    constructor (self: string, c: CacheStore, p: Params, r: RingState)
      ensures selfNodeId == self && cache == c && params == p && ring == r && reports == []
    {
      selfNodeId, cache, params, ring, reports := self, c, p, r, [];
    }

    /** Every listed item, once, with its own replica flag; the cache keeps its items. */
    method DumpLocalKeys(now: Time) returns (items: seq<DumpItem>, ghost keys: seq<string>)
      modifies cache`items, cache`hitCount, cache`missCount, cache`expiredCount
      ensures cache.items == old(cache.items)
      ensures Enumerated(cache.items, now, keys)
      ensures items == Dumped(cache.items, keys, EveryKey(), AsStored(), now)
    {
      var allKeys := cache.Keys(now);
      keys := allKeys;
      items := [];
      for i := 0 to |allKeys|
        invariant cache.items == old(cache.items)
        invariant items == Dumped(cache.items, allKeys[..i], EveryKey(), AsStored(), now)
      {
        assert allKeys[..i + 1][..i] == allKeys[..i];
        assert allKeys[i] in allKeys;
        var found := cache.Get(allKeys[i], now, now);
        if found.Some? {
          items := items + [DumpOf(found.value, now, found.value.isReplica)];
        }
      }
      assert allKeys[..|allKeys|] == allKeys;
    }

    method IngestBulkKeys(items: seq<DumpItem>, now: Time) returns (ingested: nat)
      modifies cache`items, cache`setCount
      ensures cache.items == Ingested(old(cache.items), items, now)
      ensures ingested == |items|
    {
      ingested := 0;
      for i := 0 to |items|
        invariant cache.items == Ingested(old(cache.items), items[..i], now)
        invariant ingested == i
      {
        assert items[..i + 1][..i] == items[..i];
        var ttl := 0;
        if items[i].ttlSeconds > 0 {
          ttl := items[i].ttlSeconds * SECOND;
        }
        var _ := cache.SetWithMetadata(items[i].key, items[i].value, ttl, items[i].version, items[i].isReplica, now);
        ingested := ingested + 1;
      }
      assert items[..|items|] == items;
    }

    /** A peer's dump, `None` when the request fails; only keys of this node are adopted. */
    method SyncFromPeer(response: Option<seq<DumpItem>>, now: Time) returns (synced: Option<nat>)
      modifies cache`items, cache`setCount
      ensures response.None? ==> synced.None? && cache.items == old(cache.items)
      ensures response.Some? ==>
                && synced == Some(AdoptedCount(OwnersIn(params, ring), selfNodeId, response.value))
                && cache.items == Adopted(OwnersIn(params, ring), selfNodeId, old(cache.items), response.value, now)
    {
      if response.None? {
        return None;
      }
      var n := AdoptAll(OwnersIn(params, ring), response.value, now);
      synced := Some(n);
    }

    method AdoptAll(getNodes: string -> seq<NodeTarget>, dump: seq<DumpItem>, now: Time) returns (synced: nat)
      modifies cache`items, cache`setCount
      ensures synced == AdoptedCount(getNodes, selfNodeId, dump)
      ensures cache.items == Adopted(getNodes, selfNodeId, old(cache.items), dump, now)
    {
      synced := 0;
      for i := 0 to |dump|
        invariant synced == AdoptedCount(getNodes, selfNodeId, dump[..i])
        invariant cache.items == Adopted(getNodes, selfNodeId, old(cache.items), dump[..i], now)
      {
        assert dump[..i + 1][..i] == dump[..i];
        var targets := getNodes(dump[i].key);
        if |targets| > 0 {
          var isPrimary := targets[0].nodeId == selfNodeId;
          var isReplica := |targets| > 1 && targets[1].nodeId == selfNodeId;
          if isPrimary || isReplica {
            var ttl := 0;
            if dump[i].ttlSeconds > 0 {
              ttl := dump[i].ttlSeconds * SECOND;
            }
            var _ := cache.SetWithMetadata(dump[i].key, dump[i].value, ttl, dump[i].version, isReplica, now);
            synced := synced + 1;
          }
        }
      }
      assert dump[..|dump|] == dump;
    }

    /** The new node joins the local ring, and the keys that it now leads are sent to it. A failed
        transfer leaves the ring changed and no report. */
    method RebalanceForNewNode(newNodeId: string, newNodeAddr: string, now: Time, transferOk: bool)
      returns (sent: seq<DumpItem>, report: Option<Report>, ghost keys: seq<string>)
      requires newNodeId != ""
      modifies this`ring, this`reports, cache`items, cache`hitCount, cache`missCount, cache`expiredCount
      ensures ring == Add(params, old(ring), newNodeId, newNodeAddr)
      ensures cache.items == old(cache.items)
      ensures Enumerated(cache.items, now, keys)
      ensures sent == Dumped(cache.items, keys, LedBy(OwnersIn(params, ring), newNodeId), AsPrimary(), now)
      ensures report.None? <==> sent != [] && !transferOk
      ensures report.Some? ==> report.value == ReportOf(newNodeId, selfNodeId, |keys|, |sent|)
      ensures reports == old(reports) + if report.Some? then [report.value] else []
    {
      ring := Add(params, ring, newNodeId, newNodeAddr);
      sent, report, keys := Migrate(OwnersIn(params, ring), newNodeId, now, transferOk);
    }

    /** The same after the ring has changed. */
    method Migrate(getNodes: string -> seq<NodeTarget>, newNodeId: string, now: Time, transferOk: bool)
      returns (sent: seq<DumpItem>, report: Option<Report>, ghost keys: seq<string>)
      modifies this`reports, cache`items, cache`hitCount, cache`missCount, cache`expiredCount
      ensures cache.items == old(cache.items)
      ensures Enumerated(cache.items, now, keys)
      ensures sent == Dumped(cache.items, keys, LedBy(getNodes, newNodeId), AsPrimary(), now)
      ensures report.None? <==> sent != [] && !transferOk
      ensures report.Some? ==> report.value == ReportOf(newNodeId, selfNodeId, |keys|, |sent|)
      ensures reports == old(reports) + if report.Some? then [report.value] else []
    {
      var allKeys := cache.Keys(now);
      keys := allKeys;
      sent := Collect(getNodes, allKeys, newNodeId, now);
      if |sent| > 0 && !transferOk {
        return sent, None, keys;
      }
      var done := Report(newNodeId, |allKeys|, |sent|, map[newNodeId := |sent|, selfNodeId := |allKeys| - |sent|]);
      reports := reports + [done];
      report := Some(done);
    }

    method Collect(getNodes: string -> seq<NodeTarget>, allKeys: seq<string>, newNodeId: string, now: Time)
      returns (sent: seq<DumpItem>)
      requires Enumerated(cache.items, now, allKeys)
      modifies cache`items, cache`hitCount, cache`missCount, cache`expiredCount
      ensures cache.items == old(cache.items)
      ensures sent == Dumped(cache.items, allKeys, LedBy(getNodes, newNodeId), AsPrimary(), now)
    {
      sent := [];
      for i := 0 to |allKeys|
        invariant cache.items == old(cache.items)
        invariant sent == Dumped(cache.items, allKeys[..i], LedBy(getNodes, newNodeId), AsPrimary(), now)
      {
        assert allKeys[..i + 1][..i] == allKeys[..i];
        assert allKeys[i] in allKeys;
        var targets := getNodes(allKeys[i]);
        if |targets| > 0 && targets[0].nodeId == newNodeId {
          var found := cache.Get(allKeys[i], now, now);
          if found.Some? {
            sent := sent + [DumpOf(found.value, now, false)];
          }
        }
      }
      assert allKeys[..|allKeys|] == allKeys;
    }
  }
}
