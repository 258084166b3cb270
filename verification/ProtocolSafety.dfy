/** Integrity and placement over every run of the protocol.

Whatever is lost, reordered, duplicated by a retry, crashed, synchronised, promoted or migrated:
a value stored or in flight for a key was set by a client for that key, and only the first three
nodes of the key's list ever store the key or are sent it to store.
*/
module ProtocolSafety {
  import opened Base
  import opened Ring
  import opened Cache
  import opened Protocol

  /** Pairs of a key and a value, as a node stores them. */
  type Writes = set<(string, string)>

  function WrittenBy(e: Event): Writes {
    if e.ClientSet? then {(e.key, Stored(e.value))} else {}
  }

  function Written(events: seq<Event>): Writes {
    if events == [] then {} else Written(events[..|events| - 1]) + WrittenBy(events[|events| - 1])
  }

  /** Some client set `key` to `value`. */
  ghost predicate ClientWrote(events: seq<Event>, key: string, value: string) {
    exists i :: 0 <= i < |events| && events[i].ClientSet? && events[i].key == key && Stored(events[i].value) == value
  }

  lemma {:induction false} WrittenByClients(events: seq<Event>, key: string, value: string)
    requires (key, value) in Written(events)
    ensures ClientWrote(events, key, value)
  {
    var n := |events| - 1;
    if (key, value) in Written(events[..n]) {
      WrittenByClients(events[..n], key, value);
      var i :| 0 <= i < n && events[..n][i].ClientSet? && events[..n][i].key == key
        && Stored(events[..n][i].value) == value;
      assert events[i] == events[..n][i];
    } else {
      assert (key, value) in WrittenBy(events[n]);
    }
  }

  // ---------------------------------------------------------------- the invariant

  ghost predicate Holder(c: Cluster, node: string, key: string) {
    exists j :: 0 <= j < |Nodes(c, key, 3)| && Nodes(c, key, 3)[j].nodeId == node
  }

  ghost predicate GoodItem(c: Cluster, w: Writes, node: string, key: string, item: Item) {
    item.key == key && (key, item.value) in w && Holder(c, node, key)
  }

  ghost predicate GoodItems(c: Cluster, w: Writes, node: string, items: Items) {
    forall k :: k in items ==> GoodItem(c, w, node, k, items[k])
  }

  /** A dump may be sent to any node; the receiver keeps only what it is responsible for. */
  ghost predicate GoodMessage(c: Cluster, w: Writes, m: Message) {
    && (!m.SyncMsg? ==> Holder(c, m.to.nodeId, KeyOf(m)))
    && (m.SetMsg? ==> (m.key, Stored(m.value)) in w)
    && (m.ReplicateMsg? ==> (m.key, m.value) in w)
    && (m.SyncMsg? || m.BulkMsg? ==> (m.item.key, m.item.value) in w)
  }

  ghost predicate GoodNet(c: Cluster, w: Writes, net: multiset<Message>) {
    forall m :: m in net ==> GoodMessage(c, w, m)
  }

  ghost predicate GoodSession(c: Cluster, w: Writes, x: Session) {
    && x.targets == Nodes(c, x.key, 2)
    && (x.SetSession? ==> (x.key, Stored(x.value)) in w && (x.diverted ==> |x.targets| > 1))
  }

  ghost predicate GoodSessions(c: Cluster, w: Writes, xs: multiset<Session>) {
    forall x :: x in xs ==> GoodSession(c, w, x)
  }

  ghost predicate GoodCaches(c: Cluster, w: Writes, caches: map<string, Items>) {
    forall n :: n in caches ==> GoodItems(c, w, n, caches[n])
  }

  ghost predicate Good(c: Cluster, w: Writes, s: State) {
    GoodCaches(c, w, s.caches) && GoodNet(c, w, s.net) && GoodSessions(c, w, s.sessions)
  }

  ghost predicate GoodOutcome(c: Cluster, w: Writes, node: string, o: Outcome) {
    GoodItems(c, w, node, o.items) && GoodNet(c, w, o.sends)
  }

  // ---------------------------------------------------------------- what handlers do

  lemma TargetsHold(c: Cluster, key: string, count: nat, j: nat)
    requires count <= 3 && j < |Nodes(c, key, count)|
    ensures Holder(c, Nodes(c, key, count)[j].nodeId, key)
  {
    assert Nodes(c, key, count)[j] == Nodes(c, key, 3)[j];
  }

  lemma PutGood(c: Cluster, w: Writes, node: string, items: Items, now: Time, key: string, value: string, ttl: int,
                version: Version, isReplica: bool)
    requires GoodItems(c, w, node, items) && (key, value) in w && Holder(c, node, key)
    ensures GoodItems(c, w, node, Put(items, now, key, value, ttl, version, isReplica))
  {
  }

  lemma SetGood(c: Cluster, w: Writes, items: Items, now: Time, m: Message)
    requires m.SetMsg? && GoodItems(c, w, m.to.nodeId, items) && GoodMessage(c, w, m)
    ensures GoodOutcome(c, w, m.to.nodeId, Handle(c, items, now, m))
  {
  }

  lemma DeleteGood(c: Cluster, w: Writes, items: Items, now: Time, m: Message)
    requires m.DeleteMsg? && GoodItems(c, w, m.to.nodeId, items)
    ensures GoodOutcome(c, w, m.to.nodeId, Handle(c, items, now, m))
  {
    match c.query(m.key)
    case Some(key) =>
      if |Nodes(c, key, 2)| > 1 {
        TargetsHold(c, key, 2, 1);
      }
    case None =>
  }

  /** A node that is neither primary nor replica does not adopt a dumped item. */
  lemma SyncGood(c: Cluster, w: Writes, items: Items, now: Time, m: Message)
    requires m.SyncMsg? && GoodItems(c, w, m.to.nodeId, items) && GoodMessage(c, w, m)
    ensures GoodOutcome(c, w, m.to.nodeId, Handle(c, items, now, m))
  {
    var targets, item := Nodes(c, m.item.key, 2), m.item;
    if |targets| > 0 && targets[0].nodeId == m.to.nodeId {
      TargetsHold(c, item.key, 2, 0);
    }
    if |targets| > 1 && targets[1].nodeId == m.to.nodeId {
      TargetsHold(c, item.key, 2, 1);
    }
    if Holder(c, m.to.nodeId, item.key) {
      var isReplica := |targets| > 1 && targets[1].nodeId == m.to.nodeId;
      PutGood(c, w, m.to.nodeId, items, now, item.key, item.value, CopyTTL(item.ttlSeconds), item.version, isReplica);
    }
  }

  lemma HandleGood(c: Cluster, w: Writes, items: Items, now: Time, m: Message)
    requires GoodItems(c, w, m.to.nodeId, items) && GoodMessage(c, w, m)
    ensures GoodOutcome(c, w, m.to.nodeId, Handle(c, items, now, m))
  {
    match m
    case SetMsg(_, _, _, _) => SetGood(c, w, items, now, m);
    case DeleteMsg(_, _) => DeleteGood(c, w, items, now, m);
    case SyncMsg(_, _) => SyncGood(c, w, items, now, m);
    case _ =>
  }

  /** Hot promotion copies what the node holds to the third node of the list. */
  lemma GetGood(c: Cluster, w: Writes, node: string, items: Items, now: Time, key: string, isHot: bool)
    requires GoodItems(c, w, node, items)
    ensures GoodOutcome(c, w, node, HandleGet(Nodes(c, key, 3), node, items, now, key, isHot))
  {
  }

  // ---------------------------------------------------------------- what steps do

  lemma CacheOfGood(c: Cluster, w: Writes, s: State, node: string)
    requires GoodCaches(c, w, s.caches)
    ensures GoodItems(c, w, node, CacheOf(s, node))
  {
  }

  lemma InstallGood(c: Cluster, w: Writes, s: State, node: string, o: Outcome)
    requires Good(c, w, s) && GoodOutcome(c, w, node, o)
    ensures Good(c, w, Install(s, node, o))
  {
  }

  lemma ReceiveGood(c: Cluster, w: Writes, s: State, m: Message)
    requires Good(c, w, s) && m in s.net
    ensures Good(c, w, Receive(c, s, m))
  {
    var node := m.to.nodeId;
    CacheOfGood(c, w, s, node);
    HandleGood(c, w, CacheOf(s, node), s.now, m);
    InstallGood(c, w, s.(net := s.net - multiset{m}), node, Handle(c, CacheOf(s, node), s.now, m));
  }

  lemma ReadGood(c: Cluster, w: Writes, s: State, node: string, key: string, isHot: bool)
    requires Good(c, w, s)
    ensures Good(c, w, Install(s, node, HandleGet(Nodes(c, key, 3), node, CacheOf(s, node), s.now, key, isHot)))
  {
  }

  lemma TargetsOfSession(c: Cluster, w: Writes, x: Session, j: nat)
    requires GoodSession(c, w, x) && j < |x.targets|
    ensures Holder(c, x.targets[j].nodeId, x.key)
  {
    TargetsHold(c, x.key, 2, j);
  }

  lemma FirstPostGood(c: Cluster, w: Writes, x: Session)
    requires GoodSession(c, w, x)
    ensures GoodNet(c, w, FirstPost(x))
  {
    forall j | 0 <= j < |x.targets| ensures Holder(c, x.targets[j].nodeId, x.key) {
      TargetsOfSession(c, w, x, j);
    }
  }

  lemma LaterPostsGood(c: Cluster, w: Writes, x: Session)
    requires GoodSession(c, w, x)
    ensures GoodNet(c, w, AfterOk(x)) && GoodNet(c, w, AfterError(x))
  {
    if |x.targets| > 1 {
      TargetsOfSession(c, w, x, 1);
    }
  }

  lemma SyncSendGood(c: Cluster, w: Writes, s: State, target: NodeTarget, node: string, key: string)
    requires GoodCaches(c, w, s.caches)
    ensures GoodNet(c, w, SyncSend(s, target, node, key)) && GoodNet(c, w, MigrateSend(c, s, node, key))
  {
  }

  lemma PurgeGood(c: Cluster, w: Writes, s: State, node: string)
    requires GoodCaches(c, w, s.caches)
    ensures GoodItems(c, w, node, Purge(CacheOf(s, node), s.now))
  {
  }

  lemma BeginGood(c: Cluster, w: Writes, s: State, x: Session)
    requires Good(c, w, s) && GoodSession(c, w, x)
    ensures Good(c, w, Begin(s, x))
  {
    FirstPostGood(c, w, x);
  }

  lemma EndGood(c: Cluster, w: Writes, s: State, x: Session)
    requires Good(c, w, s) && x in s.sessions
    ensures Good(c, w, End(s, x, AfterOk(x))) && Good(c, w, End(s, x, AfterError(x)))
  {
    LaterPostsGood(c, w, x);
  }

  lemma SessionStepGood(c: Cluster, w: Writes, s: State, e: Event)
    requires Good(c, w, s) && WrittenBy(e) <= w
    requires e.ClientSet? || e.ClientDelete? || e.PostOk? || e.PostError?
    ensures Good(c, w, Next(c, s, e))
  {
    match e
    case ClientSet(key, value, ttl, failed) => BeginGood(c, w, s, NewSet(c, key, value, ttl, failed));
    case ClientDelete(key) => BeginGood(c, w, s, DeleteSession(key, Nodes(c, key, 2)));
    case PostOk(x) => if x in s.sessions { EndGood(c, w, s, x); }
    case PostError(x) => if x in s.sessions { EndGood(c, w, s, x); }
  }

  lemma ReadStepGood(c: Cluster, w: Writes, s: State, e: Event)
    requires Good(c, w, s) && e.Read?
    ensures Good(c, w, Next(c, s, e))
  {
    if c.query(e.key).Some? {
      ReadGood(c, w, s, e.node, c.query(e.key).value, e.isHot);
    }
  }

  lemma MailGood(c: Cluster, w: Writes, s: State, sends: multiset<Message>)
    requires Good(c, w, s) && GoodNet(c, w, sends)
    ensures Good(c, w, s.(net := s.net + sends))
  {
  }

  lemma DumpStepGood(c: Cluster, w: Writes, s: State, e: Event)
    requires Good(c, w, s) && (e.SyncKey? || e.MigrateKey?)
    ensures Good(c, w, Next(c, s, e))
  {
    if e.SyncKey? {
      SyncSendGood(c, w, s, e.target, e.node, e.key);
      MailGood(c, w, s, SyncSend(s, e.target, e.node, e.key));
    } else {
      SyncSendGood(c, w, s, NodeTarget("", ""), e.node, e.key);
      MailGood(c, w, s, MigrateSend(c, s, e.node, e.key));
    }
  }

  lemma OneCacheGood(c: Cluster, w: Writes, s: State, node: string, items: Items)
    requires Good(c, w, s) && GoodItems(c, w, node, items)
    ensures Good(c, w, s.(caches := s.caches[node := items]))
  {
  }

  lemma LessMailGood(c: Cluster, w: Writes, s: State, m: Message)
    requires Good(c, w, s)
    ensures Good(c, w, s.(net := s.net - multiset{m}))
  {
  }

  lemma HousekeepingGood(c: Cluster, w: Writes, s: State, e: Event)
    requires Good(c, w, s) && (e.Lose? || e.Crash? || e.Expire? || e.Tick?)
    ensures Good(c, w, Next(c, s, e))
  {
    match e
    case Expire(node) =>
      PurgeGood(c, w, s, node);
      OneCacheGood(c, w, s, node, Purge(CacheOf(s, node), s.now));
    case Crash(node) => OneCacheGood(c, w, s, node, map[]);
    case Lose(m) => LessMailGood(c, w, s, m);
    case Tick(_) =>
  }

  lemma StepGood(c: Cluster, w: Writes, s: State, e: Event)
    requires Good(c, w, s) && WrittenBy(e) <= w
    ensures Good(c, w, Next(c, s, e))
  {
    if e.Deliver? {
      if e.message in s.net {
        ReceiveGood(c, w, s, e.message);
      }
    } else if e.Read? {
      ReadStepGood(c, w, s, e);
    } else if e.SyncKey? || e.MigrateKey? {
      DumpStepGood(c, w, s, e);
    } else if e.Lose? || e.Crash? || e.Expire? || e.Tick? {
      HousekeepingGood(c, w, s, e);
    } else {
      SessionStepGood(c, w, s, e);
    }
  }

  lemma MoreWrites(c: Cluster, w: Writes, w': Writes, s: State)
    requires Good(c, w, s) && w <= w'
    ensures Good(c, w', s)
  {
  }

  lemma {:induction false} EveryRunGood(c: Cluster, events: seq<Event>)
    ensures Good(c, Written(events), Run(c, events))
  {
    if events == [] {
    } else {
      var before, e := events[..|events| - 1], events[|events| - 1];
      EveryRunGood(c, before);
      MoreWrites(c, Written(before), Written(events), Run(c, before));
      StepGood(c, Written(events), Run(c, before), e);
    }
  }

  // ---------------------------------------------------------------- the theorems

  /** Every item in every cache of every run: filed under its key, set by a client, and on one of the
      first three nodes of the key. */
  lemma StoredValuesAreClientsOwn(c: Cluster, events: seq<Event>, node: string, key: string)
    requires key in CacheOf(Run(c, events), node)
    ensures var item := CacheOf(Run(c, events), node)[key];
            item.key == key && ClientWrote(events, key, item.value)
    ensures Holder(c, node, key)
  {
    EveryRunGood(c, events);
    var s := Run(c, events);
    assert GoodItem(c, Written(events), node, key, s.caches[node][key]);
    WrittenByClients(events, key, s.caches[node][key].value);
  }

  /** The value that a message asks its receiver to store. */
  function Payload(m: Message): Option<string> {
    match m
    case SetMsg(_, _, value, _) => Some(Stored(value))
    case ReplicateMsg(_, _, value, _, _) => Some(value)
    case SyncMsg(_, item) => Some(item.value)
    case BulkMsg(_, item) => Some(item.value)
    case _ => None
  }

  /** Every message in flight in every run. */
  lemma MessagesAreClientsOwn(c: Cluster, events: seq<Event>, m: Message)
    requires m in Run(c, events).net
    ensures Payload(m).Some? ==> ClientWrote(events, KeyOf(m), Payload(m).value)
    ensures !m.SyncMsg? ==> Holder(c, m.to.nodeId, KeyOf(m))
  {
    EveryRunGood(c, events);
    assert GoodMessage(c, Written(events), m);
    if Payload(m).Some? {
      WrittenByClients(events, KeyOf(m), Payload(m).value);
    }
  }

  // ---------------------------------------------------------------- dumps are the exception

  /** A client sets a key and the primary stores it. */
  function StoreRun(c: Cluster, key: string, value: string): seq<Event>
    requires Nodes(c, key, 2) != []
  {
    [] + [ClientSet(key, value, 0, false)] + [Deliver(SetMsg(Nodes(c, key, 2)[0], key, value, 0))]
  }

  /** Then the primary answers a dump request of `target`. */
  function DumpRun(c: Cluster, key: string, value: string, target: NodeTarget): seq<Event>
    requires Nodes(c, key, 2) != []
  {
    var primary := Nodes(c, key, 2)[0];
    StoreRun(c, key, value) + [SyncKey(target, primary.nodeId, key)]
  }

  lemma StoreAtPrimary(c: Cluster, key: string, value: string)
    requires Nodes(c, key, 2) != [] && !Blank(key)
    ensures var s := Run(c, StoreRun(c, key, value));
            Live(CacheOf(s, Nodes(c, key, 2)[0].nodeId), key, s.now) ==
              Some(MakeItem(map[], 0, key, Stored(value), 0, 0, false))
  {
    var m := SetMsg(Nodes(c, key, 2)[0], key, value, 0);
    var e := ClientSet(key, value, 0, false);
    RunStep(c, [], e);
    RunStep(c, [] + [e], Deliver(m));
    FirstDelivery(c, Next(c, INITIAL, e), m);
  }

  lemma FirstDelivery(c: Cluster, s: State, m: Message)
    requires s.caches == map[] && s.now == 0 && m in s.net && m.SetMsg? && !Blank(m.key) && m.ttlSeconds == 0
    ensures var s' := Next(c, s, Deliver(m));
            Live(CacheOf(s', m.to.nodeId), m.key, s'.now) ==
              Some(MakeItem(map[], 0, m.key, Stored(m.value), 0, 0, false))
  {
    assert CacheOf(s, m.to.nodeId) == map[];
  }

  lemma DumpStep(c: Cluster, s: State, target: NodeTarget, node: string, key: string, item: Item)
    requires Live(CacheOf(s, node), key, s.now) == Some(item)
    ensures SyncMsg(target, DumpOf(item, s.now, item.isReplica)) in Next(c, s, SyncKey(target, node, key)).net
  {
  }

  /** A dump answer carries every live item to whoever asks: it is the one message about a key that can
      reach a node outside the key's list. */
  lemma DumpsReachAnyNode(c: Cluster, key: string, value: string, target: NodeTarget) returns (m: Message)
    requires Nodes(c, key, 2) != [] && !Blank(key)
    ensures m in Run(c, DumpRun(c, key, value, target)).net
    ensures m.SyncMsg? && m.to == target && KeyOf(m) == key && m.item.value == Stored(value)
  {
    var s, node, item := Run(c, StoreRun(c, key, value)), Nodes(c, key, 2)[0].nodeId,
      MakeItem(map[], 0, key, Stored(value), 0, 0, false);
    StoreAtPrimary(c, key, value);
    RunStep(c, StoreRun(c, key, value), SyncKey(target, node, key));
    DumpStep(c, s, target, node, key, item);
    m := SyncMsg(target, DumpOf(item, s.now, item.isReplica));
  }

  /** Such a node does not keep it. */
  lemma OutsiderIgnoresDump(c: Cluster, items: Items, now: Time, m: Message)
    requires m.SyncMsg?
    ensures !Holder(c, m.to.nodeId, KeyOf(m)) ==> Handle(c, items, now, m).items == items
  {
    var targets := Nodes(c, m.item.key, 2);
    if |targets| > 0 {
      TargetsHold(c, m.item.key, 2, 0);
    }
    if |targets| > 1 {
      TargetsHold(c, m.item.key, 2, 1);
    }
  }
}
