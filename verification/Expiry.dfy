/** Sets with a TTL over whole runs of the protocol: when the owners stop answering them, and when nobody
    answers them any more. */
module Expiry {
  import opened Base
  import opened Ring
  import opened Cache
  import opened Protocol
  import opened Convergence
  import opened ConvergenceRuns
  import opened Handlers

  // ---------------------------------------------------------------- an item that is left alone

  /** A message that, on its arrival, writes or erases the key. */
  predicate Writes(c: Cluster, m: Message, k: string) {
    match m
    case DeleteMsg(_, text) => c.query(text) == Some(k)
    case ReplicateDeleteMsg(_, text) => c.query(text) == Some(k)
    case _ => KeyOf(m) == k
  }

  /** The event neither writes the key at the node nor takes the node's cache away. */
  predicate LeavesAlone(c: Cluster, node: string, k: string, e: Event) {
    match e
    case Deliver(m) => m.to.nodeId != node || !Writes(c, m, k)
    case Crash(n) => n != node
    case _ => true
  }

  ghost predicate AllLeaveAlone(c: Cluster, node: string, k: string, events: seq<Event>) {
    forall i :: 0 <= i < |events| ==> LeavesAlone(c, node, k, events[i])
  }

  /** The node has the item, or has dropped it after its expiry. */
  ghost predicate Held(s: State, node: string, k: string, item: Item) {
    if k in CacheOf(s, node) then CacheOf(s, node)[k] == item else IsExpired(item, s.now)
  }

  lemma HandleKeeps(c: Cluster, items: Items, now: Time, m: Message, k: string)
    requires !Writes(c, m, k)
    ensures Look(Handle(c, items, now, m).items, k) == Look(items, k)
  {
  }

  lemma DeliveryHolds(c: Cluster, s: State, node: string, k: string, item: Item, m: Message)
    requires Held(s, node, k, item) && m in s.net && LeavesAlone(c, node, k, Deliver(m))
    ensures Held(Receive(c, s, m), node, k, item)
  {
    var items := CacheOf(s, m.to.nodeId);
    if m.to.nodeId == node {
      HandleKeeps(c, items, s.now, m, k);
      assert k in items <==> Look(items, k).Some?;
      assert k in Handle(c, items, s.now, m).items <==> Look(Handle(c, items, s.now, m).items, k).Some?;
    }
  }

  lemma ReadHolds(c: Cluster, s: State, node: string, k: string, item: Item, e: Event)
    requires Held(s, node, k, item) && e.Read?
    ensures Held(Next(c, s, e), node, k, item)
  {
  }

  lemma StepHolds(c: Cluster, s: State, node: string, k: string, item: Item, e: Event)
    requires Held(s, node, k, item) && LeavesAlone(c, node, k, e)
    ensures Held(Next(c, s, e), node, k, item) && s.now <= Next(c, s, e).now
  {
    match e
    case Deliver(m) => if m in s.net { DeliveryHolds(c, s, node, k, item, m); }
    case Read(_, _, _) => ReadHolds(c, s, node, k, item, e);
    case _ =>
  }

  lemma RunNextStep(c: Cluster, base: seq<Event>, later: seq<Event>)
    requires later != []
    ensures Run(c, base + later) == Next(c, Run(c, base + later[..|later| - 1]), later[|later| - 1])
  {
    assert base + later == base + later[..|later| - 1] + [later[|later| - 1]];
  }

  lemma {:induction false} HeldThrough(c: Cluster, base: seq<Event>, later: seq<Event>, node: string, k: string,
                                       item: Item)
    requires Held(Run(c, base), node, k, item) && AllLeaveAlone(c, node, k, later)
    ensures Held(Run(c, base + later), node, k, item)
  {
    if later == [] {
      assert base + later == base;
    } else {
      HeldThrough(c, base, later[..|later| - 1], node, k, item);
      RunNextStep(c, base, later);
      StepHolds(c, Run(c, base + later[..|later| - 1]), node, k, item, later[|later| - 1]);
    }
  }

  lemma HeldReads(s: State, node: string, k: string, item: Item)
    requires Held(s, node, k, item)
    ensures ReadAt(s, node, k) == if IsExpired(item, s.now) then None else Some(item.value)
  {
  }

  // ---------------------------------------------------------------- delivered sets

  /** A set, or a replicated set, that a node stores. */
  predicate Stores(m: Message) {
    (m.SetMsg? && !Blank(m.key)) || m.ReplicateMsg?
  }

  /** What a read sees of a delivered set. */
  predicate ReadAs(m: Message, seen: string)
    requires Stores(m)
  {
    if m.SetMsg? then KeptAs(m.value, seen) else seen == m.value
  }

  /** What the delivery leaves: an item with the message's value that lives for the message's TTL. */
  ghost predicate Arrived(c: Cluster, s: State, m: Message, item: Item)
    requires Stores(m)
  {
    && Held(Receive(c, s, m), m.to.nodeId, m.key, item) && ReadAs(m, item.value)
    && forall at :: !IsExpired(item, at) <==> StillLives(s.now, m.ttlSeconds, at)
  }

  lemma SetArrives(c: Cluster, s: State, m: Message) returns (item: Item)
    requires m in s.net && Stores(m)
    ensures Arrived(c, s, m, item)
  {
    var items := CacheOf(s, m.to.nodeId);
    item := Handle(c, items, s.now, m).items[m.key];
    forall at ensures !IsExpired(item, at) <==> StillLives(s.now, m.ttlSeconds, at) {
      if m.SetMsg? {
        SetLives(Nodes(c, m.key, 2), m.to.nodeId, items, s.now, m.key, m.value, m.ttlSeconds, 0, false, at);
      } else {
        ReplicaIsStored(items, s.now, m.key, m.value, m.ttlSeconds, m.version, at);
      }
    }
  }

  /** After every run: once a set is delivered and its key is left alone at that node, reads there see its value
      until the TTL has passed since the delivery, and nothing from then on. */
  lemma DeliveredSetLives(c: Cluster, past: seq<Event>, m: Message, later: seq<Event>)
    requires m in Run(c, past).net && Stores(m) && AllLeaveAlone(c, m.to.nodeId, m.key, later)
    ensures var s := Run(c, past + [Deliver(m)] + later);
            var seen := ReadAt(s, m.to.nodeId, m.key);
            && (seen.Some? <==> StillLives(Run(c, past).now, m.ttlSeconds, s.now))
            && (seen.Some? ==> ReadAs(m, seen.value))
  {
    var item := SetArrives(c, Run(c, past), m);
    RunStep(c, past, Deliver(m));
    HeldThrough(c, past + [Deliver(m)], later, m.to.nodeId, m.key, item);
    HeldReads(Run(c, past + [Deliver(m)] + later), m.to.nodeId, m.key, item);
  }

  /** The primary sends the replica what it stored, with the TTL of the set. */
  lemma PrimaryPassesOn(c: Cluster, k: string, past: seq<Event>, v: string, ttl: int) returns (m: Message)
    requires Pair(c, k) && SetMsg(OwnersOf(c, k).p, k, v, ttl) in Run(c, past).net
    ensures m.ReplicateMsg? && m.to == OwnersOf(c, k).r && m.key == k && KeptAs(v, m.value)
    ensures m.ttlSeconds == if ttl > 0 then ttl else 0
    ensures m in Run(c, past + [Deliver(SetMsg(OwnersOf(c, k).p, k, v, ttl))]).net
  {
    RunStep(c, past, Deliver(SetMsg(OwnersOf(c, k).p, k, v, ttl)));
    m := HandlerPassesOn(c, k, CacheOf(Run(c, past), OwnersOf(c, k).p.nodeId), Run(c, past).now, v, ttl);
  }

  lemma HandlerPassesOn(c: Cluster, k: string, items: Items, now: Time, v: string, ttl: int) returns (m: Message)
    requires Pair(c, k)
    ensures m.ReplicateMsg? && m.to == OwnersOf(c, k).r && m.key == k && KeptAs(v, m.value)
    ensures m.ttlSeconds == if ttl > 0 then ttl else 0
    ensures m in Handle(c, items, now, SetMsg(OwnersOf(c, k).p, k, v, ttl)).sends
  {
    var (targets, node) := (Nodes(c, k, 2), OwnersOf(c, k).p.nodeId);
    var o := HandleSet(targets, node, items, now, k, v, ttl, 0, false);
    SetIsStored(targets, node, items, now, k, v, ttl, 0, false);
    SetIsPassedOn(targets, node, items, now, k, v, ttl, 0);
    assert PassesOnTo(targets, node, OwnersOf(c, k).r);
    m :| m in o.sends;
  }

  /** A set on its way through both owners: the primary stores it, passes it on, and the replica stores it later. */
  ghost predicate Travels(c: Cluster, k: string, past: seq<Event>, v: string, ttl: int, m: Message, mid: seq<Event>,
                          later: seq<Event>)
    requires |Nodes(c, k, 2)| == 2
  {
    var o, first := OwnersOf(c, k), SetMsg(OwnersOf(c, k).p, k, v, ttl);
    && first in Run(c, past).net
    && m.ReplicateMsg? && m.to == o.r && m.key == k && KeptAs(v, m.value)
    && m.ttlSeconds == (if ttl > 0 then ttl else 0)
    && m in Run(c, past + [Deliver(first)] + mid).net
    && AllLeaveAlone(c, o.p.nodeId, k, mid + [Deliver(m)] + later) && AllLeaveAlone(c, o.r.nodeId, k, later)
  }

  lemma Rejoined(c: Cluster, a: seq<Event>, b: seq<Event>, d: seq<Event>, e: seq<Event>)
    ensures Run(c, a + (b + d + e)) == Run(c, a + b + d + e)
  {
    assert a + (b + d + e) == a + b + d + e;
  }

  /** Both owners stop answering a set with a TTL: the primary when the TTL has passed since the set arrived there,
      the replica when it has passed since the replicated set arrived there, so not later than by that delay. */
  lemma OwnersForget(c: Cluster, k: string, past: seq<Event>, v: string, ttl: int, m: Message, mid: seq<Event>,
                     later: seq<Event>)
    requires Pair(c, k) && Travels(c, k, past, v, ttl, m, mid, later)
    ensures var (o, first) := (OwnersOf(c, k), SetMsg(OwnersOf(c, k).p, k, v, ttl));
            var s := Run(c, past + [Deliver(first)] + mid + [Deliver(m)] + later);
            var (p, r) := (ReadAt(s, o.p.nodeId, k), ReadAt(s, o.r.nodeId, k));
            && (p.Some? <==> StillLives(Run(c, past).now, ttl, s.now))
            && (r.Some? <==> StillLives(Run(c, past + [Deliver(first)] + mid).now, ttl, s.now))
            && (p.Some? ==> KeptAs(v, p.value)) && (r.Some? ==> KeptAs(v, r.value))
  {
    var first := SetMsg(OwnersOf(c, k).p, k, v, ttl);
    var one, rest := past + [Deliver(first)], mid + [Deliver(m)] + later;
    DeliveredSetLives(c, past, first, rest);
    DeliveredSetLives(c, one + mid, m, later);
    Rejoined(c, one, mid, [Deliver(m)], later);
  }

  // ---------------------------------------------------------------- time passes

  lemma TickMoves(c: Cluster, s: State, to: Time)
    requires s.now <= to
    ensures Next(c, s, Tick(to)) == s.(now := to)
  {
  }

  /** A tick moves the clock forward and nothing else. */
  lemma ClockMoves(c: Cluster, events: seq<Event>, to: Time)
    requires Run(c, events).now <= to
    ensures Run(c, events + [Tick(to)]) == Run(c, events).(now := to)
  {
    RunStep(c, events, Tick(to));
    TickMoves(c, Run(c, events), to);
  }

  lemma PurgeStep(c: Cluster, s: State, node: string, n: string, k: string)
    ensures var s' := Next(c, s, Expire(node));
            && s'.net == s.net && s'.sessions == s.sessions && s'.now == s.now
            && (n != node ==> CacheOf(s', n) == CacheOf(s, n))
            && (k in CacheOf(s', node) <==> Live(CacheOf(s, node), k, s.now).Some?)
            && (k in CacheOf(s', node) ==> CacheOf(s', node)[k] == CacheOf(s, node)[k])
  {
    ExpiredIsDropped(CacheOf(s, node), k, s.now, k);
  }

  /** The housekeeping of a node takes away its expired items, and nothing else. */
  lemma HousekeepingDropsExpired(c: Cluster, events: seq<Event>, node: string, n: string, k: string)
    ensures var (s, s') := (Run(c, events), Run(c, events + [Expire(node)]));
            && s'.net == s.net && s'.sessions == s.sessions && s'.now == s.now
            && (n != node ==> CacheOf(s', n) == CacheOf(s, n))
            && (k in CacheOf(s', node) <==> Live(CacheOf(s, node), k, s.now).Some?)
            && (k in CacheOf(s', node) ==> CacheOf(s', node)[k] == CacheOf(s, node)[k])
  {
    RunStep(c, events, Expire(node));
    PurgeStep(c, Run(c, events), node, n, k);
  }

  lemma SetBegins(c: Cluster, k: string, s: State, v: string, ttl: int)
    requires Pair(c, k)
    ensures var s' := Next(c, s, ClientSet(k, v, ttl, false));
            SetMsg(OwnersOf(c, k).p, k, v, ttl) in s'.net && s'.now == s.now
  {
    assert FirstPost(NewSet(c, k, v, ttl, false)) == multiset{SetMsg(OwnersOf(c, k).p, k, v, ttl)};
  }

  lemma SetIsPosted(c: Cluster, k: string, v: string, ttl: int)
    requires Pair(c, k)
    ensures var s := Run(c, [ClientSet(k, v, ttl, false)]);
            SetMsg(OwnersOf(c, k).p, k, v, ttl) in s.net && s.now == 0
  {
    RunStep(c, [], ClientSet(k, v, ttl, false));
    assert [] + [ClientSet(k, v, ttl, false)] == [ClientSet(k, v, ttl, false)];
    SetBegins(c, k, INITIAL, v, ttl);
  }

  lemma DeliveryTakesNoTime(c: Cluster, events: seq<Event>, m: Message)
    ensures Run(c, events + [Deliver(m)]).now == Run(c, events).now
  {
    RunStep(c, events, Deliver(m));
  }

  /** On any cluster and for any time: a set that reaches both owners at once is answered by both up to the end of its
      TTL, and by neither from then on. */
  lemma BothForgetTogether(c: Cluster, k: string, v: string, ttl: int, at: Time) returns (events: seq<Event>)
    requires Pair(c, k) && ttl > 0 && at >= 0
    ensures Run(c, events).now == at
    ensures ReadAt(Run(c, events), OwnersOf(c, k).p.nodeId, k).Some? <==> at <= ttl * NANOSECONDS
    ensures ReadAt(Run(c, events), OwnersOf(c, k).r.nodeId, k).Some? <==> at <= ttl * NANOSECONDS
  {
    var past, first := [ClientSet(k, v, ttl, false)], SetMsg(OwnersOf(c, k).p, k, v, ttl);
    SetIsPosted(c, k, v, ttl);
    var m := PrimaryPassesOn(c, k, past, v, ttl);
    var one := past + [Deliver(first)];
    DeliveryTakesNoTime(c, past, first);
    DeliveryTakesNoTime(c, one, m);
    ClockMoves(c, one + [Deliver(m)], at);
    assert one + [] == one;
    OwnersForget(c, k, past, v, ttl, m, [], [Tick(at)]);
    events := one + [] + [Deliver(m)] + [Tick(at)];
  }

  // ---------------------------------------------------------------- keys that are only set with a TTL

  predicate Timed(ttl: int, most: int) {
    0 < ttl <= most
  }

  /** The TTL that a message gives its receiver. */
  function TTLOf(m: Message): Option<int> {
    match m
    case SetMsg(_, _, _, ttl) => Some(ttl)
    case ReplicateMsg(_, _, _, ttl, _) => Some(ttl)
    case SyncMsg(_, item) => Some(item.ttlSeconds)
    case BulkMsg(_, item) => Some(item.ttlSeconds)
    case _ => None
  }

  predicate TimedItem(item: Item, now: Time, most: int) {
    item.expiresAt.Some? && item.expiresAt.value <= now + most * NANOSECONDS
  }

  predicate TimedCache(k: string, items: Items, now: Time, most: int) {
    k in items ==> TimedItem(items[k], now, most)
  }

  ghost predicate TimedMail(k: string, net: multiset<Message>, most: int) {
    forall m :: m in net && KeyOf(m) == k && TTLOf(m).Some? ==> Timed(TTLOf(m).value, most)
  }

  /** No copy of the key, wherever it is, lives for longer than `most` seconds from now. */
  ghost predicate TimedState(k: string, s: State, most: int) {
    && (forall n :: TimedCache(k, CacheOf(s, n), s.now, most))
    && TimedMail(k, s.net, most)
    && (forall y :: y in s.sessions && y.SetSession? && y.key == k ==> Timed(y.ttlSeconds, most))
  }

  /** The item that the node would copy has at least a second left. */
  predicate CopiesInTime(s: State, node: string, k: string) {
    match Live(CacheOf(s, node), k, s.now)
    case Some(item) => item.expiresAt.Some? ==> item.expiresAt.value - s.now >= NANOSECONDS
    case None => true
  }

  /** Clients give the key a TTL, and nobody copies it in its last second. */
  predicate TimedStep(c: Cluster, k: string, s: State, most: int, e: Event) {
    match e
    case ClientSet(key, _, ttl, _) => key == k ==> Timed(ttl, most)
    case Read(node, text, isHot) => isHot && c.query(text) == Some(k) ==> CopiesInTime(s, node, k)
    case SyncKey(_, node, key) => key == k ==> CopiesInTime(s, node, k)
    case MigrateKey(node, key) => key == k ==> CopiesInTime(s, node, k)
    case _ => true
  }

  ghost predicate TimedRun(c: Cluster, k: string, most: int, events: seq<Event>) {
    events != [] ==>
      && TimedRun(c, k, most, events[..|events| - 1])
      && TimedStep(c, k, Run(c, events[..|events| - 1]), most, events[|events| - 1])
  }

  lemma RemainingIsTimed(item: Item, now: Time, most: int)
    requires TimedItem(item, now, most) && item.expiresAt.value - now >= NANOSECONDS
    ensures Timed(TTLRemaining(item, now), most)
    ensures Timed(PayloadSeconds(CopyTTL(TTLRemaining(item, now))), most)
  {
  }

  lemma StoredTimed(items: Items, now: Time, k: string, value: string, ttl: int, version: Version, isReplica: bool,
                    most: int)
    requires Timed(ttl, most)
    ensures TimedCache(k, Put(items, now, k, value, CopyTTL(ttl), version, isReplica), now, most)
  {
  }

  lemma HandleTimed(c: Cluster, k: string, items: Items, now: Time, m: Message, most: int)
    requires TimedCache(k, items, now, most) && (KeyOf(m) == k && TTLOf(m).Some? ==> Timed(TTLOf(m).value, most))
    ensures var o := Handle(c, items, now, m); TimedCache(k, o.items, now, most) && TimedMail(k, o.sends, most)
  {
    match m
    case SetMsg(to, key, value, ttl) =>
      if key == k {
        StoredTimed(items, now, k, Stored(value), ttl, 0, false, most);
        SetPassesTimed(c, items, now, m, most);
      }
    case ReplicateMsg(_, key, value, ttl, version) =>
      if key == k {
        StoredTimed(items, now, k, value, ttl, version, true, most);
      }
    case _ =>
  }

  lemma SetPassesTimed(c: Cluster, items: Items, now: Time, m: Message, most: int)
    requires m.SetMsg? && Timed(m.ttlSeconds, most)
    ensures TimedMail(m.key, Handle(c, items, now, m).sends, most)
  {
    if !Blank(m.key) {
      SetIsPassedOn(Nodes(c, m.key, 2), m.to.nodeId, items, now, m.key, m.value, m.ttlSeconds, 0);
    }
  }

  lemma InstallTimed(k: string, s: State, node: string, o: Outcome, most: int)
    requires TimedState(k, s, most) && TimedCache(k, o.items, s.now, most) && TimedMail(k, o.sends, most)
    ensures TimedState(k, Install(s, node, o), most)
  {
    var s' := Install(s, node, o);
    forall m | m in s'.net && KeyOf(m) == k && TTLOf(m).Some? ensures Timed(TTLOf(m).value, most) {
      assert m in s.net || m in o.sends;
    }
    forall n ensures TimedCache(k, CacheOf(s', n), s'.now, most) {
      assert TimedCache(k, CacheOf(s, n), s.now, most);
    }
  }

  lemma TakenTimed(k: string, s: State, m: Message, most: int)
    requires TimedState(k, s, most)
    ensures TimedState(k, s.(net := s.net - multiset{m}), most)
  {
    var s' := s.(net := s.net - multiset{m});
    forall n ensures TimedCache(k, CacheOf(s', n), s'.now, most) {
      assert TimedCache(k, CacheOf(s, n), s.now, most);
    }
  }

  lemma ReceiveTimed(c: Cluster, k: string, s: State, m: Message, most: int)
    requires TimedState(k, s, most) && m in s.net
    ensures TimedState(k, Receive(c, s, m), most)
  {
    var items := CacheOf(s, m.to.nodeId);
    assert TimedCache(k, items, s.now, most);
    HandleTimed(c, k, items, s.now, m, most);
    TakenTimed(k, s, m, most);
    InstallTimed(k, s.(net := s.net - multiset{m}), m.to.nodeId, Handle(c, items, s.now, m), most);
  }

  lemma PromotionTimed(targets: seq<NodeTarget>, node: string, item: Item, now: Time, k: string, most: int)
    requires item.key == k ==> TimedItem(item, now, most) && item.expiresAt.value - now >= NANOSECONDS
    ensures TimedMail(k, Promotion(targets, node, item, now), most)
  {
    if item.key == k {
      RemainingIsTimed(item, now, most);
    }
  }

  lemma GetTimed(c: Cluster, k: string, s: State, node: string, key: string, isHot: bool, most: int)
    requires TimedState(k, s, most) && AllFiled(s) && (isHot && key == k ==> CopiesInTime(s, node, k))
    ensures var o := HandleGet(Nodes(c, key, 3), node, CacheOf(s, node), s.now, key, isHot);
            TimedCache(k, o.items, s.now, most) && TimedMail(k, o.sends, most)
  {
    var items := CacheOf(s, node);
    assert TimedCache(k, items, s.now, most);
    if isHot && Live(items, key, s.now).Some? {
      assert Filed(items);
      PromotionTimed(Nodes(c, key, 3), node, items[key], s.now, k, most);
    }
  }

  lemma CopiesTimed(c: Cluster, k: string, s: State, target: NodeTarget, node: string, key: string, most: int)
    requires TimedState(k, s, most) && AllFiled(s) && (key == k ==> CopiesInTime(s, node, k))
    ensures TimedMail(k, SyncSend(s, target, node, key), most) && TimedMail(k, MigrateSend(c, s, node, key), most)
  {
    var items := CacheOf(s, node);
    assert TimedCache(k, items, s.now, most);
    if Live(items, key, s.now).Some? {
      assert Filed(items);
      if key == k {
        RemainingIsTimed(items[k], s.now, most);
      }
    }
  }

  lemma MailTimed(k: string, s: State, sends: multiset<Message>, most: int)
    requires TimedState(k, s, most) && TimedMail(k, sends, most)
    ensures TimedState(k, s.(net := s.net + sends), most)
  {
    var s' := s.(net := s.net + sends);
    forall m | m in s'.net && KeyOf(m) == k && TTLOf(m).Some? ensures Timed(TTLOf(m).value, most) {
      assert m in s.net || m in sends;
    }
    forall n ensures TimedCache(k, CacheOf(s', n), s'.now, most) {
      assert TimedCache(k, CacheOf(s, n), s.now, most);
    }
  }

  ghost predicate TimedSession(k: string, x: Session, most: int) {
    x.SetSession? && x.key == k ==> Timed(x.ttlSeconds, most)
  }

  lemma LaterPostsTimed(k: string, x: Session, most: int)
    requires TimedSession(k, x, most)
    ensures TimedMail(k, AfterOk(x), most) && TimedMail(k, AfterError(x), most)
  {
    if |x.targets| > 1 {
      SecondPosts(x);
    }
  }

  lemma PostsTimed(k: string, x: Session, most: int)
    requires TimedSession(k, x, most)
    ensures TimedMail(k, FirstPost(x), most) && TimedMail(k, AfterOk(x), most) && TimedMail(k, AfterError(x), most)
  {
    FirstPostCarriesRequest(x);
    LaterPostsTimed(k, x, most);
  }

  lemma BeginTimed(k: string, s: State, x: Session, most: int)
    requires TimedState(k, s, most) && TimedSession(k, x, most)
    ensures TimedState(k, Begin(s, x), most)
  {
    PostsTimed(k, x, most);
    MailTimed(k, s, FirstPost(x), most);
    forall n ensures TimedCache(k, CacheOf(Begin(s, x), n), s.now, most) {
      assert TimedCache(k, CacheOf(s, n), s.now, most);
    }
  }

  lemma EndTimed(k: string, s: State, x: Session, sends: multiset<Message>, most: int)
    requires TimedState(k, s, most) && TimedMail(k, sends, most)
    ensures TimedState(k, End(s, x, sends), most)
  {
    MailTimed(k, s, sends, most);
    forall n ensures TimedCache(k, CacheOf(End(s, x, sends), n), s.now, most) {
      assert TimedCache(k, CacheOf(s, n), s.now, most);
    }
  }

  lemma HousekeepingTimed(c: Cluster, k: string, s: State, e: Event, most: int)
    requires TimedState(k, s, most) && (e.Lose? || e.Crash? || e.Expire? || e.Tick?)
    ensures TimedState(k, Next(c, s, e), most)
  {
    var s' := Next(c, s, e);
    forall n ensures TimedCache(k, CacheOf(s', n), s'.now, most) {
      assert TimedCache(k, CacheOf(s, n), s.now, most);
    }
  }

  lemma SessionsTimed(c: Cluster, k: string, s: State, e: Event, most: int)
    requires TimedState(k, s, most) && TimedStep(c, k, s, most, e)
    requires e.ClientSet? || e.ClientDelete? || e.PostOk? || e.PostError?
    ensures TimedState(k, Next(c, s, e), most)
  {
    match e
    case ClientSet(key, v, ttl, failed) => BeginTimed(k, s, NewSet(c, key, v, ttl, failed), most);
    case ClientDelete(key) => BeginTimed(k, s, DeleteSession(key, Nodes(c, key, 2)), most);
    case PostOk(x) =>
      if x in s.sessions {
        PostsTimed(k, x, most);
        EndTimed(k, s, x, AfterOk(x), most);
      }
    case PostError(x) =>
      if x in s.sessions {
        PostsTimed(k, x, most);
        EndTimed(k, s, x, AfterError(x), most);
      }
  }

  lemma ReadTimed(c: Cluster, k: string, s: State, e: Event, most: int)
    requires TimedState(k, s, most) && AllFiled(s) && e.Read? && TimedStep(c, k, s, most, e)
    ensures TimedState(k, Next(c, s, e), most)
  {
    if c.query(e.key).Some? && !Blank(c.query(e.key).value) {
      var key := c.query(e.key).value;
      GetTimed(c, k, s, e.node, key, e.isHot, most);
      InstallTimed(k, s, e.node, HandleGet(Nodes(c, key, 3), e.node, CacheOf(s, e.node), s.now, key, e.isHot), most);
    }
  }

  lemma StepTimed(c: Cluster, k: string, s: State, e: Event, most: int)
    requires TimedState(k, s, most) && AllFiled(s) && TimedStep(c, k, s, most, e)
    ensures TimedState(k, Next(c, s, e), most)
  {
    match e
    case Deliver(m) => if m in s.net { ReceiveTimed(c, k, s, m, most); }
    case Read(_, _, _) => ReadTimed(c, k, s, e, most);
    case SyncKey(target, node, key) =>
      CopiesTimed(c, k, s, target, node, key, most);
      MailTimed(k, s, SyncSend(s, target, node, key), most);
    case MigrateKey(node, key) =>
      CopiesTimed(c, k, s, NodeTarget("", ""), node, key, most);
      MailTimed(k, s, MigrateSend(c, s, node, key), most);
    case Lose(_) => HousekeepingTimed(c, k, s, e, most);
    case Crash(_) => HousekeepingTimed(c, k, s, e, most);
    case Expire(_) => HousekeepingTimed(c, k, s, e, most);
    case Tick(_) => HousekeepingTimed(c, k, s, e, most);
    case _ => SessionsTimed(c, k, s, e, most);
  }

  /** Whatever is lost, crashed, promoted, dumped or migrated: when every set of a key has a TTL of at most `most`
      seconds and no copy is made in an item's last second, no copy anywhere lives for longer than that. */
  lemma {:induction false} EveryCopyIsTimed(c: Cluster, k: string, most: int, events: seq<Event>)
    requires TimedRun(c, k, most, events)
    ensures TimedState(k, Run(c, events), most)
  {
    if events == [] {
    } else {
      EveryCopyIsTimed(c, k, most, events[..|events| - 1]);
      RunsFile(c, events[..|events| - 1]);
      StepTimed(c, k, Run(c, events[..|events| - 1]), events[|events| - 1], most);
    }
  }

  /** No message that writes the key arrives. */
  predicate Unwritten(c: Cluster, k: string, e: Event) {
    e.Deliver? ==> !Writes(c, e.message, k)
  }

  /** The node holds for the key what it held before, or nothing. */
  ghost predicate NothingNew(k: string, before: Items, after: Items) {
    k in after ==> k in before && after[k] == before[k]
  }

  lemma UnwrittenStep(c: Cluster, k: string, s: State, e: Event, n: string)
    requires Unwritten(c, k, e)
    ensures NothingNew(k, CacheOf(s, n), CacheOf(Next(c, s, e), n))
  {
    if e.Deliver? && e.message in s.net && e.message.to.nodeId == n {
      var items := CacheOf(s, n);
      HandleKeeps(c, items, s.now, e.message, k);
      assert k in items <==> Look(items, k).Some?;
      assert k in Handle(c, items, s.now, e.message).items <==>
             Look(Handle(c, items, s.now, e.message).items, k).Some?;
    }
  }

  lemma {:induction false} UnwrittenRun(c: Cluster, k: string, base: seq<Event>, later: seq<Event>, n: string)
    requires forall i :: 0 <= i < |later| ==> Unwritten(c, k, later[i])
    ensures NothingNew(k, CacheOf(Run(c, base), n), CacheOf(Run(c, base + later), n))
  {
    if later == [] {
      assert base + later == base;
    } else {
      UnwrittenRun(c, k, base, later[..|later| - 1], n);
      RunNextStep(c, base, later);
      UnwrittenStep(c, k, Run(c, base + later[..|later| - 1]), later[|later| - 1], n);
    }
  }

  /** So once nothing about the key has arrived anywhere for `most` seconds, no node answers it. */
  lemma EverybodyForgets(c: Cluster, k: string, most: int, base: seq<Event>, later: seq<Event>, n: string)
    requires TimedRun(c, k, most, base) && forall i :: 0 <= i < |later| ==> Unwritten(c, k, later[i])
    requires Run(c, base + later).now > Run(c, base).now + most * NANOSECONDS
    ensures ReadAt(Run(c, base + later), n, k).None?
  {
    EveryCopyIsTimed(c, k, most, base);
    assert TimedCache(k, CacheOf(Run(c, base), n), Run(c, base).now, most);
    UnwrittenRun(c, k, base, later, n);
  }
}
