/** What migration, recovery and adoption move, and that nothing else moves. */
module RebalanceRuns {
  import opened Base
  import opened Ring
  import opened RingOrder
  import opened Cache
  import opened Protocol
  import opened Rebalance

  // ---------------------------------------------------------------- dumps

  predicate Names(dump: seq<DumpItem>, key: string) {
    exists i :: 0 <= i < |dump| && dump[i].key == key
  }

  ghost predicate OncePerKey(dump: seq<DumpItem>) {
    forall i, j :: 0 <= i < j < |dump| ==> dump[i].key != dump[j].key
  }

  /** Each entry is the dump of a stored item. */
  ghost predicate Copies(items: Items, dump: seq<DumpItem>, replicaFlag: Item -> bool, now: Time) {
    forall i :: 0 <= i < |dump| ==>
      dump[i].key in items && dump[i] == DumpOf(items[dump[i].key], now, replicaFlag(items[dump[i].key]))
  }

  ghost predicate AllLive(items: Items, keys: seq<string>, now: Time) {
    && Filed(items)
    && (forall i :: 0 <= i < |keys| ==> Live(items, keys[i], now).Some?)
    && (forall i, j :: 0 <= i < j < |keys| ==> keys[i] != keys[j])
  }

  ghost predicate Covers(dump: seq<DumpItem>, keys: seq<string>, picks: string -> bool) {
    forall k :: Names(dump, k) <==> k in keys && picks(k)
  }

  lemma SnocNames(dump: seq<DumpItem>, d: DumpItem, k: string)
    ensures Names(dump + [d], k) <==> Names(dump, k) || d.key == k
  {
    var more := dump + [d];
    if Names(dump, k) {
      var i :| 0 <= i < |dump| && dump[i].key == k;
      assert more[i].key == k;
    }
    if d.key == k {
      assert more[|dump|].key == k;
    }
  }

  lemma SnocCovers(dump: seq<DumpItem>, d: DumpItem, keys: seq<string>, picks: string -> bool)
    requires Covers(dump, keys, picks) && picks(d.key)
    ensures Covers(dump + [d], keys + [d.key], picks)
  {
    forall k ensures Names(dump + [d], k) <==> k in keys + [d.key] && picks(k) {
      SnocNames(dump, d, k);
    }
  }

  lemma SkipCovers(dump: seq<DumpItem>, keys: seq<string>, key: string, picks: string -> bool)
    requires Covers(dump, keys, picks) && !picks(key)
    ensures Covers(dump, keys + [key], picks)
  {
  }

  lemma SnocOnce(dump: seq<DumpItem>, d: DumpItem)
    requires OncePerKey(dump) && !Names(dump, d.key)
    ensures OncePerKey(dump + [d])
  {
  }

  ghost predicate DumpFacts(items: Items, keys: seq<string>, picks: string -> bool, replicaFlag: Item -> bool,
                            now: Time, dump: seq<DumpItem>)
  {
    Copies(items, dump, replicaFlag, now) && OncePerKey(dump) && Covers(dump, keys, picks)
  }

  /** A dump holds each picked key exactly once, as a copy of the stored item. */
  lemma {:induction false} DumpIsExact(items: Items, keys: seq<string>, picks: string -> bool,
                                       replicaFlag: Item -> bool, now: Time)
    requires AllLive(items, keys, now)
    ensures DumpFacts(items, keys, picks, replicaFlag, now, Dumped(items, keys, picks, replicaFlag, now))
  {
    if keys == [] {
    } else {
      var before, k := keys[..|keys| - 1], keys[|keys| - 1];
      DumpIsExact(items, before, picks, replicaFlag, now);
      var dump := Dumped(items, before, picks, replicaFlag, now);
      assert keys == before + [k];
      assert k !in before;
      if picks(k) {
        var d := DumpOf(items[k], now, replicaFlag(items[k]));
        assert d.key == k;
        SnocCovers(dump, d, before, picks);
        SnocOnce(dump, d);
      } else {
        SkipCovers(dump, before, k, picks);
      }
    }
  }

  lemma EnumeratedLive(items: Items, now: Time, keys: seq<string>)
    requires Enumerated(items, now, keys) && Filed(items)
    ensures AllLive(items, keys, now)
  {
  }

  // ---------------------------------------------------------------- ingestion

  /** What a receiver stores of an entry. */
  ghost predicate Landed(items: Items, d: DumpItem, isReplica: bool, now: Time) {
    && d.key in items
    && items[d.key].key == d.key && items[d.key].value == d.value && items[d.key].isReplica == isReplica
    && (d.version != 0 ==> items[d.key].version == d.version)
    && items[d.key].expiresAt == if d.ttlSeconds > 0 then Some(now + d.ttlSeconds * SECOND) else None
  }

  ghost predicate Untouched(before: Items, after: Items, key: string) {
    (key in after <==> key in before) && (key in before ==> after[key] == before[key])
  }

  lemma BulkLands(items: Items, d: DumpItem, now: Time)
    ensures Landed(HandleBulk(items, now, d).items, d, d.isReplica, now)
    ensures forall k :: k != d.key ==> Untouched(items, HandleBulk(items, now, d).items, k)
  {
  }

  ghost predicate IngestFacts(before: Items, dump: seq<DumpItem>, now: Time, after: Items) {
    && (forall i :: 0 <= i < |dump| ==> Landed(after, dump[i], dump[i].isReplica, now))
    && (forall k :: !Names(dump, k) ==> Untouched(before, after, k))
  }

  lemma IngestStep(before: Items, dump: seq<DumpItem>, d: DumpItem, now: Time, mid: Items, after: Items)
    requires IngestFacts(before, dump, now, mid) && !Names(dump, d.key)
    requires Landed(after, d, d.isReplica, now) && forall k :: k != d.key ==> Untouched(mid, after, k)
    ensures IngestFacts(before, dump + [d], now, after)
  {
    var more := dump + [d];
    forall i | 0 <= i < |more| ensures Landed(after, more[i], more[i].isReplica, now) {
      if i < |dump| {
        assert more[i] == dump[i] && dump[i].key != d.key;
        assert Untouched(mid, after, dump[i].key);
      }
    }
    forall k | !Names(more, k) ensures Untouched(before, after, k) {
      SnocNames(dump, d, k);
      assert Untouched(before, mid, k) && Untouched(mid, after, k);
    }
  }

  lemma PrefixOnce(dump: seq<DumpItem>)
    requires OncePerKey(dump) && dump != []
    ensures OncePerKey(dump[..|dump| - 1]) && !Names(dump[..|dump| - 1], dump[|dump| - 1].key)
    ensures dump == dump[..|dump| - 1] + [dump[|dump| - 1]]
  {
  }

  /** After ingestion the node holds every entry, and its other keys are as they were. */
  lemma {:induction false} IngestIsExact(items: Items, dump: seq<DumpItem>, now: Time)
    requires OncePerKey(dump)
    ensures IngestFacts(items, dump, now, Ingested(items, dump, now))
  {
    if dump == [] {
    } else {
      var before, d := dump[..|dump| - 1], dump[|dump| - 1];
      PrefixOnce(dump);
      IngestIsExact(items, before, now);
      BulkLands(Ingested(items, before, now), d, now);
      IngestStep(items, before, d, now, Ingested(items, before, now), Ingested(items, dump, now));
    }
  }

  // ---------------------------------------------------------------- recovery: dump and ingest

  lemma LandedCopy(items: Items, target: Items, d: DumpItem, now: Time)
    requires d.key in items && Listed(items[d.key], now) && items[d.key].key == d.key
    requires d == DumpOf(items[d.key], now, items[d.key].isReplica) && Landed(target, d, d.isReplica, now)
    ensures var source, copy := items[d.key], target[d.key];
            && copy.value == source.value && copy.isReplica == source.isReplica
            && (source.version != 0 ==> copy.version == source.version)
            && copy.expiresAt == DumpedCopy(map[], source, source.isReplica, now).expiresAt
  {
  }

  /** A node that ingests the dump of another into an empty cache holds exactly the other's listed
      keys, with their values, flags and versions; only the expiry is rounded. */
  lemma DumpThenIngestRestores(items: Items, keys: seq<string>, now: Time, k: string)
    requires Filed(items) && Enumerated(items, now, keys)
    ensures var restored := Ingested(map[], Dumped(items, keys, EveryKey(), AsStored(), now), now);
            && (k in restored <==> k in items && Listed(items[k], now))
            && (k in restored ==>
                  && restored[k].key == k && restored[k].value == items[k].value
                  && restored[k].isReplica == items[k].isReplica
                  && (items[k].version != 0 ==> restored[k].version == items[k].version)
                  && restored[k].expiresAt == DumpedCopy(map[], items[k], items[k].isReplica, now).expiresAt)
  {
    var dump := Dumped(items, keys, EveryKey(), AsStored(), now);
    EnumeratedLive(items, now, keys);
    DumpIsExact(items, keys, EveryKey(), AsStored(), now);
    IngestIsExact(map[], dump, now);
    if Names(dump, k) {
      var i :| 0 <= i < |dump| && dump[i].key == k;
      LandedCopy(items, Ingested(map[], dump, now), dump[i], now);
    } else {
      assert Untouched(map[], Ingested(map[], dump, now), k);
    }
  }

  // ---------------------------------------------------------------- adoption

  lemma SyncLands(targets: seq<NodeTarget>, node: string, items: Items, d: DumpItem, now: Time)
    ensures var after := HandleSync(targets, node, items, now, d).items;
            && (Leads(targets, node) || Seconds(targets, node) ==> Landed(after, d, Seconds(targets, node), now))
            && (!(Leads(targets, node) || Seconds(targets, node)) ==> after == items)
            && (forall k :: k != d.key ==> Untouched(items, after, k))
  {
  }

  ghost predicate Responsible(owners: string -> seq<NodeTarget>, node: string, key: string) {
    Leads(owners(key), node) || Seconds(owners(key), node)
  }

  ghost predicate AdoptFacts(owners: string -> seq<NodeTarget>, node: string, before: Items, dump: seq<DumpItem>,
                             now: Time, after: Items)
  {
    && (forall i :: 0 <= i < |dump| ==>
          if Responsible(owners, node, dump[i].key) then Landed(after, dump[i], Seconds(owners(dump[i].key), node), now)
          else Untouched(before, after, dump[i].key))
    && (forall k :: !Names(dump, k) ==> Untouched(before, after, k))
  }

  lemma AdoptStep(owners: string -> seq<NodeTarget>, node: string, before: Items, dump: seq<DumpItem>, d: DumpItem,
                  now: Time, mid: Items, after: Items)
    requires AdoptFacts(owners, node, before, dump, now, mid) && !Names(dump, d.key)
    requires if Responsible(owners, node, d.key) then Landed(after, d, Seconds(owners(d.key), node), now)
             else after == mid
    requires forall k :: k != d.key ==> Untouched(mid, after, k)
    ensures AdoptFacts(owners, node, before, dump + [d], now, after)
  {
    var more := dump + [d];
    forall i | 0 <= i < |more|
      ensures if Responsible(owners, node, more[i].key)
              then Landed(after, more[i], Seconds(owners(more[i].key), node), now)
              else Untouched(before, after, more[i].key)
    {
      if i < |dump| {
        assert more[i] == dump[i] && dump[i].key != d.key;
        assert Untouched(mid, after, dump[i].key);
      } else {
        assert Untouched(before, mid, d.key);
      }
    }
    forall k | !Names(more, k) ensures Untouched(before, after, k) {
      SnocNames(dump, d, k);
      assert Untouched(before, mid, k) && Untouched(mid, after, k);
    }
  }

  /** After a synchronisation the node holds, of the peer's dump, exactly the keys it leads or seconds;
      every other key is as it was. */
  lemma {:induction false} AdoptionIsExact(owners: string -> seq<NodeTarget>, node: string, items: Items,
                                           dump: seq<DumpItem>, now: Time)
    requires OncePerKey(dump)
    ensures AdoptFacts(owners, node, items, dump, now, Adopted(owners, node, items, dump, now))
  {
    if dump == [] {
    } else {
      var before, d := dump[..|dump| - 1], dump[|dump| - 1];
      PrefixOnce(dump);
      AdoptionIsExact(owners, node, items, before, now);
      var mid := Adopted(owners, node, items, before, now);
      SyncLands(owners(d.key), node, mid, d, now);
      AdoptStep(owners, node, items, before, d, now, mid, Adopted(owners, node, items, dump, now));
    }
  }

  // ---------------------------------------------------------------- what is reported

  /** The positions of the entries that the node leads or seconds. */
  ghost function Taken(owners: string -> seq<NodeTarget>, node: string, dump: seq<DumpItem>): set<int> {
    set i | 0 <= i < |dump| && Responsible(owners, node, dump[i].key)
  }

  /** The reported number of synchronised keys is the number of entries that the node leads or seconds. */
  lemma {:induction false} AdoptionIsCounted(owners: string -> seq<NodeTarget>, node: string, dump: seq<DumpItem>)
    ensures AdoptedCount(owners, node, dump) == |Taken(owners, node, dump)|
  {
    if dump == [] {
    } else {
      var n := |dump| - 1;
      AdoptionIsCounted(owners, node, dump[..n]);
      var before, taken := Taken(owners, node, dump[..n]), Taken(owners, node, dump);
      assert forall i :: 0 <= i < n ==> dump[..n][i] == dump[i];
      assert taken == before + (if Responsible(owners, node, dump[n].key) then {n} else {});
    }
  }

  /** The numbers of a report on one or two nodes add up to `total`. */
  predicate CountsAddUp(r: Report, total: nat)
    requires r.addedNode in r.keysPerNode
  {
    var n := r.keysPerNode[r.addedNode];
    if r.keysPerNode.Keys == {r.addedNode} then n == total
    else exists other :: other in r.keysPerNode && other != r.addedNode && n + r.keysPerNode[other] == total
  }

  /** A report names the new node and how many keys were looked at and sent, and splits them between the new node
      and this one. The two numbers add up, and the new node's is that of the keys sent, exactly when the new node is
      another node, or there was nothing to look at. */
  lemma ReportAddsUpIff(id: string, self: string, evaluated: nat, moved: nat)
    ensures var r := ReportOf(id, self, evaluated, moved);
            && r.addedNode == id && r.keysEvaluated == evaluated && r.keysMoved == moved
            && r.keysPerNode.Keys == {id, self}
            && (r.keysPerNode[id] == moved && CountsAddUp(r, evaluated) <==> id != self || evaluated == moved == 0)
  {
  }

  // ---------------------------------------------------------------- migration

  ghost predicate Joins(p: Params, ring: RingState, id: string, addr: string) {
    && Canon(p, ring) && p.vnodes > 0 && ring.nodes != {}
    && id != "" && id !in ring.nodes && !IsPlaceholder(ring, id, addr) && CollisionFree(p, ring.nodes + {id})
  }

  lemma OwnersInRing(p: Params, ring: RingState, key: string)
    requires ring.tokens != [] && |Preference(p, ring, key)| > 0
    ensures |OwnersIn(p, ring)(key)| > 0 && OwnersIn(p, ring)(key)[0] == Target(ring, Preference(p, ring, key)[0])
  {
  }

  lemma AddressesStay(p: Params, ring: RingState, id: string, addr: string, x: string)
    requires id !in ring.nodes && !IsPlaceholder(ring, id, addr) && x != id
    ensures Target(Add(p, ring, id, addr), x) == Target(ring, x)
  {
  }

  lemma JoinedRing(p: Params, ring: RingState, id: string, addr: string)
    requires Joins(p, ring, id, addr)
    ensures ring.tokens != [] && Add(p, ring, id, addr).tokens != []
  {
  }

  ghost predicate KeepsPrimary(before: seq<NodeTarget>, after: seq<NodeTarget>, id: string) {
    |before| > 0 && |after| > 0 && (after[0].nodeId == id || after[0] == before[0])
  }

  lemma SameTarget(p: Params, ring: RingState, ring': RingState, id: string, key: string)
    requires ring.tokens != [] && |Preference(p, ring, key)| > 0
    requires ring'.tokens != [] && |Preference(p, ring', key)| > 0
    requires Preference(p, ring', key)[0] == id || Preference(p, ring', key)[0] == Preference(p, ring, key)[0]
    requires Preference(p, ring', key)[0] != id ==>
             Target(ring', Preference(p, ring, key)[0]) == Target(ring, Preference(p, ring, key)[0])
    ensures KeepsPrimary(OwnersIn(p, ring)(key), OwnersIn(p, ring')(key), id)
  {
    OwnersInRing(p, ring, key);
    OwnersInRing(p, ring', key);
  }

  /** A key that the new node does not lead keeps its primary, with its address. */
  lemma OthersKeepTheirPrimary(p: Params, ring: RingState, id: string, addr: string, key: string)
    requires Joins(p, ring, id, addr)
    ensures KeepsPrimary(OwnersIn(p, ring)(key), OwnersIn(p, Add(p, ring, id, addr))(key), id)
  {
    JoinedRing(p, ring, id, addr);
    AdditionMovesKeysOnlyToNewNode(p, ring, key, id, addr);
    if Preference(p, Add(p, ring, id, addr), key)[0] != id {
      AddressesStay(p, ring, id, addr, Preference(p, ring, key)[0]);
    }
    SameTarget(p, ring, Add(p, ring, id, addr), id, key);
  }

  /** What `RebalanceForNewNode` sends. */
  function Migration(p: Params, ring: RingState, id: string, addr: string, items: Items, keys: seq<string>,
                     now: Time): seq<DumpItem>
  {
    Dumped(items, keys, LedBy(OwnersIn(p, Add(p, ring, id, addr)), id), AsPrimary(), now)
  }

  /** Exactly the listed keys that the new node leads are sent. */
  lemma MigrationIsExact(p: Params, ring: RingState, id: string, addr: string, items: Items, keys: seq<string>,
                         now: Time)
    requires Filed(items) && Enumerated(items, now, keys)
    ensures var picks := LedBy(OwnersIn(p, Add(p, ring, id, addr)), id);
            DumpFacts(items, keys, picks, AsPrimary(), now, Migration(p, ring, id, addr, items, keys, now))
  {
    EnumeratedLive(items, now, keys);
    DumpIsExact(items, keys, LedBy(OwnersIn(p, Add(p, ring, id, addr)), id), AsPrimary(), now);
  }

  /** What a migration does to one key: `before` and `after` are its owners before and after. */
  ghost predicate MovedOrKept(before: seq<NodeTarget>, after: seq<NodeTarget>, id: string, item: Item,
                              sent: seq<DumpItem>, target: Items, target': Items)
  {
    && KeepsPrimary(before, after, id)
    && (Names(sent, item.key) <==> Leads(after, id))
    && (Names(sent, item.key) ==>
          && item.key in target' && target'[item.key].value == item.value && !target'[item.key].isReplica
          && (item.version != 0 ==> target'[item.key].version == item.version))
    && (!Names(sent, item.key) ==> after[0] == before[0] && Untouched(target, target', item.key))
  }

  lemma MoveCases(items: Items, keys: seq<string>, owners: string -> seq<NodeTarget>, before: seq<NodeTarget>,
                  id: string, now: Time, sent: seq<DumpItem>, target: Items, target': Items, k: string)
    requires DumpFacts(items, keys, LedBy(owners, id), AsPrimary(), now, sent)
             && IngestFacts(target, sent, now, target')
    requires k in keys && k in items && items[k].key == k && KeepsPrimary(before, owners(k), id)
    ensures MovedOrKept(before, owners(k), id, items[k], sent, target, target')
  {
  }

  /** At one instant, with a successful transfer: a listed key of the sender either has the new node as
      its primary, and then the new node holds its value and version, or keeps the primary it had. */
  lemma RebalancingMovesExactlyTheNewKeys(p: Params, ring: RingState, id: string, addr: string, items: Items,
                                          keys: seq<string>, now: Time, target: Items, k: string)
    requires Joins(p, ring, id, addr) && Filed(items) && Enumerated(items, now, keys)
    requires k in items && Listed(items[k], now)
    ensures var sent := Migration(p, ring, id, addr, items, keys, now);
            MovedOrKept(OwnersIn(p, ring)(k), OwnersIn(p, Add(p, ring, id, addr))(k), id, items[k], sent, target,
                        Ingested(target, sent, now))
  {
    var sent := Migration(p, ring, id, addr, items, keys, now);
    MigrationIsExact(p, ring, id, addr, items, keys, now);
    OthersKeepTheirPrimary(p, ring, id, addr, k);
    IngestIsExact(target, sent, now);
    MoveCases(items, keys, OwnersIn(p, Add(p, ring, id, addr)), OwnersIn(p, ring)(k), id, now, sent, target,
              Ingested(target, sent, now), k);
  }

  /** And nothing but listed keys is sent. */
  lemma OnlyListedKeysMove(p: Params, ring: RingState, id: string, addr: string, items: Items, keys: seq<string>,
                           now: Time, k: string)
    requires Filed(items) && Enumerated(items, now, keys) && Names(Migration(p, ring, id, addr, items, keys, now), k)
    ensures k in items && Listed(items[k], now)
  {
    MigrationIsExact(p, ring, id, addr, items, keys, now);
  }

  // ---------------------------------------------------------------- the same in the protocol

  /** The lists that the protocol's nodes share. */
  function OwnersOf(c: Cluster): string -> seq<NodeTarget> {
    key => Nodes(c, key, 2)
  }

  /** The protocol sends a dump one entry at a time: for each listed key exactly its entry. */
  lemma DumpsAreSentByKey(s: State, node: string, target: NodeTarget, keys: seq<string>, i: nat)
    requires Filed(CacheOf(s, node)) && Enumerated(CacheOf(s, node), s.now, keys)
    requires i < |Dumped(CacheOf(s, node), keys, EveryKey(), AsStored(), s.now)|
    ensures var d := Dumped(CacheOf(s, node), keys, EveryKey(), AsStored(), s.now)[i];
            d.key in keys && SyncSend(s, target, node, d.key) == multiset{SyncMsg(target, d)}
  {
    EntryIsCopy(CacheOf(s, node), keys, EveryKey(), AsStored(), s.now, i);
  }

  lemma EntryIsCopy(items: Items, keys: seq<string>, picks: string -> bool, replicaFlag: Item -> bool, now: Time,
                    i: nat)
    requires Filed(items) && Enumerated(items, now, keys)
    requires i < |Dumped(items, keys, picks, replicaFlag, now)|
    ensures var d := Dumped(items, keys, picks, replicaFlag, now)[i];
            && d.key in keys && picks(d.key) && d.key in items && Live(items, d.key, now) == Some(items[d.key])
            && d == DumpOf(items[d.key], now, replicaFlag(items[d.key]))
  {
    var dump := Dumped(items, keys, picks, replicaFlag, now);
    EnumeratedLive(items, now, keys);
    DumpIsExact(items, keys, picks, replicaFlag, now);
    assert Names(dump, dump[i].key);
  }

  /** A migration likewise: for each key that the new node leads exactly its entry, to the new node. */
  lemma MigrationsAreSentByKey(c: Cluster, s: State, node: string, id: string, keys: seq<string>, i: nat)
    requires Filed(CacheOf(s, node)) && Enumerated(CacheOf(s, node), s.now, keys)
    requires i < |Dumped(CacheOf(s, node), keys, LedBy(OwnersOf(c), id), AsPrimary(), s.now)|
    ensures var d := Dumped(CacheOf(s, node), keys, LedBy(OwnersOf(c), id), AsPrimary(), s.now)[i];
            && d.key in keys && Leads(Nodes(c, d.key, 2), id)
            && MigrateSend(c, s, node, d.key) == multiset{BulkMsg(Nodes(c, d.key, 2)[0], d)}
  {
    EntryIsCopy(CacheOf(s, node), keys, LedBy(OwnersOf(c), id), AsPrimary(), s.now, i);
  }

  /** And what a node makes of a delivered entry is what it makes of it in a dump or a migration. */
  lemma EntriesAreHandledAlike(c: Cluster, items: Items, now: Time, to: NodeTarget, d: DumpItem)
    ensures Handle(c, items, now, SyncMsg(to, d)).items == Adopted(OwnersOf(c), to.nodeId, items, [d], now)
    ensures Handle(c, items, now, BulkMsg(to, d)).items == Ingested(items, [d], now)
  {
    assert [d][..0] == [];
  }
}
