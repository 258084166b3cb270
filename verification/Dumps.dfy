/** The start-up loop of a node: it asks its peers for their dumps, one after the other in no particular order,
    and adopts the keys it is responsible for without comparing versions.

All statements hold in every state in which items are filed under their own key, so after every run.
*/
module Dumps {
  import opened Base
  import opened Ring
  import opened Cache
  import opened Protocol
  import opened ConvergenceRuns

  /** The node leads or seconds the key. */
  predicate Responsible(c: Cluster, k: string, node: string) {
    exists i :: 0 <= i < |Nodes(c, k, 2)| && Nodes(c, k, 2)[i].nodeId == node
  }

  // ---------------------------------------------------------------- the dump of one peer

  /** The dump of `source` about the key, on its way to `target`. */
  function Transfer(s: State, k: string, target: NodeTarget, source: string): seq<Event> {
    match Live(CacheOf(s, source), k, s.now)
    case Some(item) => [SyncKey(target, source, k), Deliver(SyncMsg(target, DumpOf(item, s.now, item.isReplica)))]
    case None => [SyncKey(target, source, k)]
  }

  /** The state after the dump has been asked for and delivered. */
  function Synced(c: Cluster, s: State, k: string, target: NodeTarget, source: string): State {
    var s' := Next(c, s, SyncKey(target, source, k));
    match Live(CacheOf(s, source), k, s.now)
    case Some(item) => Next(c, s', Deliver(SyncMsg(target, DumpOf(item, s.now, item.isReplica))))
    case None => s'
  }

  lemma TransferRuns(c: Cluster, past: seq<Event>, k: string, target: NodeTarget, source: string)
    ensures Run(c, past + Transfer(Run(c, past), k, target, source)) == Synced(c, Run(c, past), k, target, source)
  {
    var s, e := Run(c, past), SyncKey(target, source, k);
    RunStep(c, past, e);
    match Live(CacheOf(s, source), k, s.now)
    case Some(item) =>
      var d := Deliver(SyncMsg(target, DumpOf(item, s.now, item.isReplica)));
      RunStep(c, past + [e], d);
      assert past + [e, d] == past + [e] + [d];
    case None =>
  }

  /** The second state differs from the first at most in the cache of `node`. */
  ghost predicate OnlyCache(s: State, s': State, node: string) {
    && s'.net == s.net && s'.sessions == s.sessions && s'.now == s.now
    && (forall n :: n != node ==> CacheOf(s', n) == CacheOf(s, n))
  }

  /** What the adoption of an item leaves in a cache. */
  ghost predicate Adopted(items: Items, items': Items, now: Time, item: Item) {
    exists isReplica :: items' == Put(items, now, item.key, item.value, CopyTTL(TTLRemaining(item, now)), item.version,
                                      isReplica)
  }

  lemma DumpSent(c: Cluster, k: string, s: State, target: NodeTarget, source: string, item: Item)
    requires Live(CacheOf(s, source), k, s.now) == Some(item)
    ensures var m := SyncMsg(target, DumpOf(item, s.now, item.isReplica));
            Next(c, s, SyncKey(target, source, k)) == s.(net := s.net + multiset{m})
  {
  }

  lemma DumpHandled(c: Cluster, items: Items, now: Time, target: NodeTarget, item: Item)
    requires Responsible(c, item.key, target.nodeId)
    ensures var oc := Handle(c, items, now, SyncMsg(target, DumpOf(item, now, item.isReplica)));
            Adopted(items, oc.items, now, item) && oc.sends == multiset{}
  {
    var targets := Nodes(c, item.key, 2);
    var isReplica := |targets| > 1 && targets[1].nodeId == target.nodeId;
    var items' := Put(items, now, item.key, item.value, CopyTTL(TTLRemaining(item, now)), item.version, isReplica);
    assert Handle(c, items, now, SyncMsg(target, DumpOf(item, now, item.isReplica))) == Outcome(items', multiset{});
  }

  lemma SilentInstall(s: State, m: Message, oc: Outcome)
    requires oc.sends == multiset{}
    ensures var s' := Install(s.(net := s.net + multiset{m} - multiset{m}), m.to.nodeId, oc);
            OnlyCache(s, s', m.to.nodeId) && CacheOf(s', m.to.nodeId) == oc.items
  {
    assert s.net + multiset{m} - multiset{m} + multiset{} == s.net;
  }

  lemma DeliveryInstalls(c: Cluster, s: State, m: Message, oc: Outcome)
    requires oc == Handle(c, CacheOf(s, m.to.nodeId), s.now, m)
    ensures Next(c, s.(net := s.net + multiset{m}), Deliver(m)) ==
            Install(s.(net := s.net + multiset{m} - multiset{m}), m.to.nodeId, oc)
  {
  }

  lemma SyncedAdopts(c: Cluster, k: string, s: State, target: NodeTarget, source: string, item: Item)
    requires Responsible(c, k, target.nodeId) && item.key == k
    requires Live(CacheOf(s, source), k, s.now) == Some(item)
    ensures var s' := Synced(c, s, k, target, source);
            OnlyCache(s, s', target.nodeId)
              && Adopted(CacheOf(s, target.nodeId), CacheOf(s', target.nodeId), s.now, item)
  {
    DumpSent(c, k, s, target, source, item);
    DumpHandled(c, CacheOf(s, target.nodeId), s.now, target, item);
    var m := SyncMsg(target, DumpOf(item, s.now, item.isReplica));
    var oc := Handle(c, CacheOf(s, target.nodeId), s.now, m);
    SilentInstall(s, m, oc);
    DeliveryInstalls(c, s, m, oc);
  }

  lemma SyncedSilent(c: Cluster, k: string, s: State, target: NodeTarget, source: string)
    requires Live(CacheOf(s, source), k, s.now).None?
    ensures Synced(c, s, k, target, source) == s
  {
    assert s.net + multiset{} == s.net;
  }

  /** A dump leaves the value of its sender, if that holds the key. */
  lemma SyncedReads(c: Cluster, k: string, s: State, target: NodeTarget, source: string)
    requires Responsible(c, k, target.nodeId) && AllFiled(s)
    ensures var s' := Synced(c, s, k, target, source);
            && OnlyCache(s, s', target.nodeId) && AllFiled(s')
            && ReadAt(s', target.nodeId, k) ==
               if ReadAt(s, source, k).Some? then ReadAt(s, source, k) else ReadAt(s, target.nodeId, k)
  {
    match Live(CacheOf(s, source), k, s.now)
    case None => SyncedSilent(c, k, s, target, source);
    case Some(item) =>
      SyncedAdopts(c, k, s, target, source, item);
      OneCacheFiled(s, Synced(c, s, k, target, source), target.nodeId);
  }

  lemma OneCacheFiled(s: State, s': State, node: string)
    requires AllFiled(s) && OnlyCache(s, s', node) && Filed(CacheOf(s', node))
    ensures AllFiled(s')
  {
    forall n | n in s'.caches ensures Filed(s'.caches[n]) {
      assert s'.caches[n] == CacheOf(s', n);
      if n != node {
        assert Filed(CacheOf(s, n));
      }
    }
  }

  // ---------------------------------------------------------------- the loop

  /** The dumps of the peers are adopted in the given order. */
  function StartUp(c: Cluster, s: State, k: string, target: NodeTarget, order: seq<string>): State {
    if order == [] then s
    else Synced(c, StartUp(c, s, k, target, order[..|order| - 1]), k, target, order[|order| - 1])
  }

  /** The loop as a continuation of a run. */
  function StartUpRun(c: Cluster, past: seq<Event>, k: string, target: NodeTarget, order: seq<string>): seq<Event> {
    if order == [] then past
    else
      var before := StartUpRun(c, past, k, target, order[..|order| - 1]);
      before + Transfer(Run(c, before), k, target, order[|order| - 1])
  }

  lemma {:induction false} StartUpRuns(c: Cluster, past: seq<Event>, k: string, target: NodeTarget, order: seq<string>)
    ensures Run(c, StartUpRun(c, past, k, target, order)) == StartUp(c, Run(c, past), k, target, order)
  {
    if order == [] {
    } else {
      var before := StartUpRun(c, past, k, target, order[..|order| - 1]);
      StartUpRuns(c, past, k, target, order[..|order| - 1]);
      TransferRuns(c, before, k, target, order[|order| - 1]);
    }
  }

  /** The value of the last peer in the order that holds the key, or else of the starting node itself. */
  function LastHeld(s: State, k: string, target: string, order: seq<string>): Option<string> {
    if order == [] then ReadAt(s, target, k)
    else
      var n := order[|order| - 1];
      if n != target && ReadAt(s, n, k).Some? then ReadAt(s, n, k)
      else LastHeld(s, k, target, order[..|order| - 1])
  }

  /** The last dump that has the key wins, whoever sent it. */
  lemma {:induction false} LastDumpWins(c: Cluster, k: string, s: State, target: NodeTarget, order: seq<string>)
    requires Responsible(c, k, target.nodeId) && AllFiled(s)
    ensures ReadAt(StartUp(c, s, k, target, order), target.nodeId, k) == LastHeld(s, k, target.nodeId, order)
    ensures OnlyCache(s, StartUp(c, s, k, target, order), target.nodeId) && AllFiled(StartUp(c, s, k, target, order))
  {
    if order == [] {
    } else {
      LastDumpWins(c, k, s, target, order[..|order| - 1]);
      SyncedReads(c, k, StartUp(c, s, k, target, order[..|order| - 1]), target, order[|order| - 1]);
    }
  }

  // ---------------------------------------------------------------- any order

  /** However the peers are ordered, the starting node ends up reading `want`. */
  ghost predicate EveryOrderReads(c: Cluster, s: State, k: string, target: NodeTarget, peers: seq<string>,
                                  want: Option<string>)
  {
    forall order :: multiset(order) == multiset(peers) ==>
      ReadAt(StartUp(c, s, k, target, order), target.nodeId, k) == want
  }

  ghost predicate HeldElsewhere(s: State, k: string, target: string, peers: seq<string>) {
    exists n :: n in peers && n != target && ReadAt(s, n, k).Some?
  }

  /** Every peer that holds the key reads `want`, and so does the node itself if no peer holds it. */
  ghost predicate PeersAgree(s: State, k: string, target: string, peers: seq<string>, want: Option<string>) {
    && (forall n :: n in peers && n != target && ReadAt(s, n, k).Some? ==> ReadAt(s, n, k) == want)
    && (!HeldElsewhere(s, k, target, peers) ==> ReadAt(s, target, k) == want)
  }

  lemma {:induction false} LastHeldAgrees(s: State, k: string, target: string, order: seq<string>, want: Option<string>)
    requires forall n :: n in order && n != target && ReadAt(s, n, k).Some? ==> ReadAt(s, n, k) == want
    ensures LastHeld(s, k, target, order) ==
            if HeldElsewhere(s, k, target, order) then want else ReadAt(s, target, k)
  {
    if order == [] {
    } else {
      var before, n := order[..|order| - 1], order[|order| - 1];
      LastHeldAgrees(s, k, target, before, want);
      assert order == before + [n];
      assert forall x :: x in order <==> x in before || x == n;
    }
  }

  lemma SameMembers(order: seq<string>, peers: seq<string>)
    requires multiset(order) == multiset(peers)
    ensures forall n :: n in order <==> n in peers
  {
    assert forall n :: n in order <==> n in multiset(order);
  }

  lemma AgreeingOrder(s: State, k: string, target: string, peers: seq<string>, want: Option<string>,
                      order: seq<string>)
    requires PeersAgree(s, k, target, peers, want) && multiset(order) == multiset(peers)
    ensures LastHeld(s, k, target, order) == want
  {
    SameMembers(order, peers);
    LastHeldAgrees(s, k, target, order, want);
  }

  /** The order in which peer `i` comes last. */
  function Postponed(peers: seq<string>, i: nat): (order: seq<string>)
    requires i < |peers|
    ensures multiset(order) == multiset(peers)
  {
    assert peers == peers[..i] + [peers[i]] + peers[i + 1..];
    peers[..i] + peers[i + 1..] + [peers[i]]
  }

  lemma PostponedWins(s: State, k: string, target: string, peers: seq<string>, i: nat)
    requires i < |peers| && peers[i] != target && ReadAt(s, peers[i], k).Some?
    ensures LastHeld(s, k, target, Postponed(peers, i)) == ReadAt(s, peers[i], k)
  {
  }

  lemma EveryOrderAgrees(c: Cluster, s: State, k: string, target: NodeTarget, peers: seq<string>, want: Option<string>,
                         n: string)
    requires Responsible(c, k, target.nodeId) && AllFiled(s) && EveryOrderReads(c, s, k, target, peers, want)
    requires n in peers && n != target.nodeId && ReadAt(s, n, k).Some?
    ensures ReadAt(s, n, k) == want
  {
    var i :| 0 <= i < |peers| && peers[i] == n;
    var order := Postponed(peers, i);
    PostponedWins(s, k, target.nodeId, peers, i);
    LastDumpWins(c, k, s, target, order);
    assert ReadAt(StartUp(c, s, k, target, order), target.nodeId, k) == want;
  }

  /** The outcome of the loop is `want` in every order of the peers if and only if all peers that hold the key
      agree on `want`. */
  lemma EveryOrderIff(c: Cluster, s: State, k: string, target: NodeTarget, peers: seq<string>, want: Option<string>)
    requires Responsible(c, k, target.nodeId) && AllFiled(s)
    ensures EveryOrderReads(c, s, k, target, peers, want) <==> PeersAgree(s, k, target.nodeId, peers, want)
  {
    if PeersAgree(s, k, target.nodeId, peers, want) {
      forall order | multiset(order) == multiset(peers)
        ensures ReadAt(StartUp(c, s, k, target, order), target.nodeId, k) == want
      {
        LastDumpWins(c, k, s, target, order);
        AgreeingOrder(s, k, target.nodeId, peers, want, order);
      }
    }
    if EveryOrderReads(c, s, k, target, peers, want) {
      forall n | n in peers && n != target.nodeId && ReadAt(s, n, k).Some? ensures ReadAt(s, n, k) == want {
        EveryOrderAgrees(c, s, k, target, peers, want, n);
      }
      LastDumpWins(c, k, s, target, peers);
      LastHeldAgrees(s, k, target.nodeId, peers, want);
    }
  }
}
