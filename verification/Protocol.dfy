/** The replication and failover protocol as a state machine: node caches, messages in flight, and
    gateway requests that wait for an answer.

A step that is not possible in a state changes nothing, so a run is any sequence of events. Every
delivery order, loss, crash, late answer and timeout is some sequence of events.
*/
module Protocol {
  import opened Base
  import opened Ring
  import opened Cache

  // ---------------------------------------------------------------- cluster and messages

  /** `route` lists all members for a key in ring order; node and gateway agree on it. `query` is what a
      handler reads of a key that was sent in a query string, `None` when the request fails on the way. */
  datatype Cluster = Cluster(route: string -> seq<NodeTarget>, query: string -> Option<string>)

  function Nodes(c: Cluster, key: string, count: nat): seq<NodeTarget> {
    Take(c.route(key), count)
  }

  /** The cluster in which every node and the gateway hold the ring `ring`. */
  function ClusterOf(p: Params, ring: RingState, query: string -> Option<string>): Cluster {
    Cluster(key => Targets(ring, Preference(p, ring, key)), query)
  }

  lemma RouteOfRing(p: Params, ring: RingState, query: string -> Option<string>, key: string)
    ensures ClusterOf(p, ring, query).route(key) == Targets(ring, Preference(p, ring, key))
  {
  }

  lemma TakeTargets(ring: RingState, ids: seq<string>, count: nat)
    ensures Take(Targets(ring, ids), count) == Targets(ring, Take(ids, count))
  {
  }

  lemma NobodyPreferred(p: Params, ring: RingState, key: string)
    requires ring.tokens == []
    ensures Preference(p, ring, key) == []
  {
    assert Owners(ring.owner, Rotated(ring.tokens, HashOf(p, key))) == [];
  }

  /** The lists of the cluster are what `GetNodes` returns. */
  lemma NodesAreGetNodes(p: Params, ring: RingState, query: string -> Option<string>, key: string, count: nat)
    ensures Nodes(ClusterOf(p, ring, query), key, count) == TargetsIn(NodesFor(p, ring, key, count))
  {
    RouteOfRing(p, ring, query, key);
    TakeTargets(ring, Preference(p, ring, key), count);
    if ring.tokens == [] {
      NobodyPreferred(p, ring, key);
    }
  }

  datatype DumpItem = DumpItem(key: string, value: string, ttlSeconds: int, version: Version, isReplica: bool)

  /** Sets carry their key in a body; deletes carry it in a query string. */
  datatype Message =
    | SetMsg(to: NodeTarget, key: string, value: string, ttlSeconds: int)
    | ReplicateMsg(to: NodeTarget, key: string, value: string, ttlSeconds: int, version: Version)
    | DeleteMsg(to: NodeTarget, key: string)
    | ReplicateDeleteMsg(to: NodeTarget, key: string)
    | SyncMsg(to: NodeTarget, item: DumpItem)  // one item of a dump that `to` asked for
    | BulkMsg(to: NodeTarget, item: DumpItem)  // one item of a migration to `to`

  function KeyOf(m: Message): string {
    match m
    case SyncMsg(_, item) => item.key
    case BulkMsg(_, item) => item.key
    case _ => m.key
  }

  /** A gateway request whose first post has not been answered. */
  datatype Session =
    | SetSession(key: string, value: string, ttlSeconds: int, targets: seq<NodeTarget>, diverted: bool)
    | DeleteSession(key: string, targets: seq<NodeTarget>)

  datatype State = State(
    caches: map<string, Items>, net: multiset<Message>, sessions: multiset<Session>, now: Time)

  const INITIAL: State := State(map[], multiset{}, multiset{}, 0)

  function CacheOf(s: State, node: string): Items {
    if node in s.caches then s.caches[node] else map[]
  }

  // ---------------------------------------------------------------- request texts

  predicate IsSpace(ch: char) {
    || '\t' <= ch <= '\r' || ch == ' ' || ch == '\U{0085}' || ch == '\U{00A0}' || ch == '\U{1680}'
    || '\U{2000}' <= ch <= '\U{200A}' || ch == '\U{2028}' || ch == '\U{2029}' || ch == '\U{202F}' || ch == '\U{205F}'
    || ch == '\U{3000}'
  }

  predicate Blank(text: string) {
    forall i :: 0 <= i < |text| ==> IsSpace(text[i])
  }

  /** A blank value falls back to the query parameters, of which the gateway sends none. */
  function Stored(value: string): string {
    if Blank(value) then "" else value
  }

  // ---------------------------------------------------------------- handlers of a node

  /** The cache after a request, and what the handler sends. Handlers are given the nodes of the key. */
  datatype Outcome = Outcome(items: Items, sends: multiset<Message>)

  /** The replica, unless it is this node or has no address. */
  function ReplicaOtherThan(targets: seq<NodeTarget>, node: string): Option<NodeTarget> {
    if |targets| > 1 && targets[1].nodeId != node && targets[1].addr != "" then Some(targets[1]) else None
  }

  /** What a node that stored a set sends on. */
  function SetSends(targets: seq<NodeTarget>, node: string, item: Item, ttl: int): multiset<Message> {
    match ReplicaOtherThan(targets, node)
    case Some(replica) => multiset{ReplicateMsg(replica, item.key, item.value, PayloadSeconds(ttl), item.version)}
    case None => multiset{}
  }

  /** A set; requests from the gateway carry version 0 and no replica flag. */
  function HandleSet(targets: seq<NodeTarget>, node: string, items: Items, now: Time, key: string, value: string,
                     ttlSeconds: int, version: Version, isReplica: bool): Outcome
  {
    if Blank(key) then
      Outcome(items, multiset{})
    else
      var items' := Put(items, now, key, Stored(value), CopyTTL(ttlSeconds), version, isReplica);
      Outcome(items', if isReplica then multiset{} else SetSends(targets, node, items'[key], CopyTTL(ttlSeconds)))
  }

  function HandleReplicate(items: Items, now: Time, key: string, value: string, ttlSeconds: int,
                           version: Version): Outcome
  {
    Outcome(Put(items, now, key, value, CopyTTL(ttlSeconds), version, true), multiset{})
  }

  function DeleteSends(targets: seq<NodeTarget>, node: string, key: string): multiset<Message> {
    match ReplicaOtherThan(targets, node)
    case Some(replica) => multiset{ReplicateDeleteMsg(replica, key)}
    case None => multiset{}
  }

  function HandleDelete(targets: seq<NodeTarget>, node: string, items: Items, key: string): Outcome {
    if Blank(key) then Outcome(items, multiset{}) else Outcome(items - {key}, DeleteSends(targets, node, key))
  }

  function HandleReplicateDelete(items: Items, key: string): Outcome {
    Outcome(if key == "" then items else items - {key}, multiset{})
  }

  /** A hot key is copied to the third node of its list. */
  function Promotion(targets: seq<NodeTarget>, node: string, item: Item, now: Time): multiset<Message> {
    if |targets| > 2 && targets[2].nodeId != node && targets[2].addr != "" then
      multiset{ReplicateMsg(targets[2], item.key, item.value, PayloadSeconds(CopyTTL(TTLRemaining(item, now))),
                            item.version)}
    else
      multiset{}
  }

  function HandleGet(targets: seq<NodeTarget>, node: string, items: Items, now: Time, key: string,
                     isHot: bool): Outcome
  {
    match Live(items, key, now)
    case None => Outcome(DropIfExpired(items, key, now), multiset{})
    case Some(item) => Outcome(items, if isHot then Promotion(targets, node, item, now) else multiset{})
  }

  /** A node adopts a dumped item only if it is the key's primary or replica. */
  function HandleSync(targets: seq<NodeTarget>, node: string, items: Items, now: Time, item: DumpItem): Outcome {
    var isPrimary := |targets| > 0 && targets[0].nodeId == node;
    var isReplica := |targets| > 1 && targets[1].nodeId == node;
    if isPrimary || isReplica then
      Outcome(Put(items, now, item.key, item.value, CopyTTL(item.ttlSeconds), item.version, isReplica), multiset{})
    else
      Outcome(items, multiset{})
  }

  function HandleBulk(items: Items, now: Time, item: DumpItem): Outcome {
    Outcome(Put(items, now, item.key, item.value, CopyTTL(item.ttlSeconds), item.version, item.isReplica), multiset{})
  }

  function DumpOf(item: Item, now: Time, isReplica: bool): DumpItem {
    DumpItem(item.key, item.value, TTLRemaining(item, now), item.version, isReplica)
  }

  function Handle(c: Cluster, items: Items, now: Time, m: Message): Outcome {
    match m
    case SetMsg(to, key, value, ttl) => HandleSet(Nodes(c, key, 2), to.nodeId, items, now, key, value, ttl, 0, false)
    case ReplicateMsg(_, key, value, ttl, version) => HandleReplicate(items, now, key, value, ttl, version)
    case DeleteMsg(to, text) =>
      (match c.query(text)
       case Some(key) => HandleDelete(Nodes(c, key, 2), to.nodeId, items, key)
       case None => Outcome(items, multiset{}))
    case ReplicateDeleteMsg(_, text) =>
      (match c.query(text)
       case Some(key) => HandleReplicateDelete(items, key)
       case None => Outcome(items, multiset{}))
    case SyncMsg(to, item) => HandleSync(Nodes(c, item.key, 2), to.nodeId, items, now, item)
    case BulkMsg(_, item) => HandleBulk(items, now, item)
  }

  // ---------------------------------------------------------------- the gateway

  /** Writes go to the primary, or to the replica while the primary is marked FAILED. */
  predicate Diverts(targets: seq<NodeTarget>, primaryFailed: bool) {
    primaryFailed && |targets| > 1
  }

  function Destination(targets: seq<NodeTarget>, diverted: bool): NodeTarget
    requires |targets| > 0 && (diverted ==> |targets| > 1)
  {
    if diverted then targets[1] else targets[0]
  }

  /** The first post of a request. */
  function FirstPost(x: Session): multiset<Message> {
    if x.targets == [] || (x.SetSession? && x.diverted && |x.targets| < 2) then
      multiset{}
    else
      match x
      case SetSession(key, value, ttl, targets, diverted) =>
        multiset{SetMsg(Destination(targets, diverted), key, value, ttl)}
      case DeleteSession(key, targets) => multiset{DeleteMsg(targets[0], key)}
  }

  /** After a successful set the gateway also posts the set to the replica, unless that is where the
      first post went or the replica has no address. */
  function AfterOk(x: Session): multiset<Message> {
    if x.SetSession? && |x.targets| > 1 && x.targets[1].addr != ""
       && x.targets[1].addr != Destination(x.targets, x.diverted).addr then
      multiset{SetMsg(x.targets[1], x.key, x.value, x.ttlSeconds)}
    else
      multiset{}
  }

  /** When the first post fails, the request goes to the replica, if it did not already. */
  function AfterError(x: Session): multiset<Message> {
    if |x.targets| < 2 then multiset{}
    else match x
         case SetSession(key, value, ttl, targets, diverted) =>
           if diverted then multiset{} else multiset{SetMsg(targets[1], key, value, ttl)}
         case DeleteSession(key, targets) => multiset{DeleteMsg(targets[1], key)}
  }

  // ---------------------------------------------------------------- steps and runs

  datatype Event =
    | ClientSet(key: string, value: string, ttlSeconds: int, primaryFailed: bool)
    | ClientDelete(key: string)
    | PostOk(session: Session)
    | PostError(session: Session)
    | Deliver(message: Message)
    | Lose(message: Message)
    | Crash(node: string)
    | Read(node: string, key: string, isHot: bool)
    | SyncKey(target: NodeTarget, node: string, key: string)
    | MigrateKey(node: string, key: string)
    | Expire(node: string)
    | Tick(to: Time)

  function Install(s: State, node: string, o: Outcome): State {
    s.(caches := s.caches[node := o.items], net := s.net + o.sends)
  }

  function Begin(s: State, x: Session): State {
    s.(sessions := s.sessions + multiset{x}, net := s.net + FirstPost(x))
  }

  function End(s: State, x: Session, sends: multiset<Message>): State {
    s.(sessions := s.sessions - multiset{x}, net := s.net + sends)
  }

  function Receive(c: Cluster, s: State, m: Message): State {
    var s' := s.(net := s.net - multiset{m});
    Install(s', m.to.nodeId, Handle(c, CacheOf(s, m.to.nodeId), s.now, m))
  }

  function NewSet(c: Cluster, key: string, value: string, ttlSeconds: int, primaryFailed: bool): Session {
    SetSession(key, value, ttlSeconds, Nodes(c, key, 2), Diverts(Nodes(c, key, 2), primaryFailed))
  }

  /** One item of the dump that `node` answers to `target`. */
  function SyncSend(s: State, target: NodeTarget, node: string, key: string): multiset<Message> {
    match Live(CacheOf(s, node), key, s.now)
    case Some(item) => multiset{SyncMsg(target, DumpOf(item, s.now, item.isReplica))}
    case None => multiset{}
  }

  /** One item of a migration from `node` to the primary of the key. */
  function MigrateSend(c: Cluster, s: State, node: string, key: string): multiset<Message> {
    var targets := Nodes(c, key, 2);
    match Live(CacheOf(s, node), key, s.now)
    case Some(item) => if |targets| > 0 then multiset{BulkMsg(targets[0], DumpOf(item, s.now, false))} else multiset{}
    case None => multiset{}
  }

  function Next(c: Cluster, s: State, e: Event): State {
    match e
    case ClientSet(key, value, ttl, failed) =>
      if key == "" || Nodes(c, key, 2) == [] then s else Begin(s, NewSet(c, key, value, ttl, failed))
    case ClientDelete(key) =>
      if key == "" || Nodes(c, key, 2) == [] then s else Begin(s, DeleteSession(key, Nodes(c, key, 2)))
    case PostOk(x) => if x in s.sessions then End(s, x, AfterOk(x)) else s
    case PostError(x) => if x in s.sessions then End(s, x, AfterError(x)) else s
    case Deliver(m) => if m in s.net then Receive(c, s, m) else s
    case Lose(m) => s.(net := s.net - multiset{m})
    case Crash(node) => s.(caches := s.caches[node := map[]])
    case Read(node, text, isHot) =>
      (match c.query(text)
       case Some(key) =>
         if Blank(key) then s
         else Install(s, node, HandleGet(Nodes(c, key, 3), node, CacheOf(s, node), s.now, key, isHot))
       case None => s)
    case SyncKey(target, node, key) => s.(net := s.net + SyncSend(s, target, node, key))
    case MigrateKey(node, key) => s.(net := s.net + MigrateSend(c, s, node, key))
    case Expire(node) => s.(caches := s.caches[node := Purge(CacheOf(s, node), s.now)])
    case Tick(to) => if s.now <= to then s.(now := to) else s
  }

  function Run(c: Cluster, events: seq<Event>): State {
    if events == [] then INITIAL else Next(c, Run(c, events[..|events| - 1]), events[|events| - 1])
  }

  lemma RunStep(c: Cluster, events: seq<Event>, e: Event)
    ensures Run(c, events + [e]) == Next(c, Run(c, events), e)
  {
  }
}
