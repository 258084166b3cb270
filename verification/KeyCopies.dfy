/** All copies of one key in a calm run: at its owners, at the third node and on their way there.

The phase of a key speaks of its two owners. Hot-key copies are the only other copies; they have no
expiry, and their versions stay within the number of sets.
*/
module KeyCopies {
  import opened Base
  import opened Ring
  import opened Cache
  import opened Protocol
  import opened Convergence
  import opened ConvergenceRuns

  /** A stored version below the bound, which means something only while the 64-bit counter has not run out. */
  predicate Within(bound: nat, version: Version) {
    bound < VERSIONS ==> 1 <= version <= bound
  }

  predicate SoundItem(k: string, bound: nat, item: Item) {
    item.key == k && item.expiresAt.None? && Within(bound, item.version)
  }

  predicate SoundCopy(bound: nat, m: Message) {
    m.ReplicateMsg? && m.ttlSeconds <= 0 && Within(bound, m.version)
  }

  /** The cache holds nothing else for the key. */
  predicate SoundCache(k: string, bound: nat, items: Items) {
    k in items ==> SoundItem(k, bound, items[k])
  }

  predicate IsOwner(o: OwnerPair, node: string) {
    node == o.p.nodeId || node == o.r.nodeId
  }

  /** What is about the key and not sent to an owner is a sound hot-key copy. */
  ghost predicate SoundMail(o: OwnerPair, k: string, bound: nat, net: multiset<Message>) {
    forall m :: m in net && KeyOf(m) == k && !Owned(o, k, m) ==> SoundCopy(bound, m)
  }

  /** The copies that are no business of the owners. */
  ghost predicate SoundStrays(c: Cluster, k: string, bound: nat, s: State)
    requires |Nodes(c, k, 2)| == 2
  {
    && (forall n :: !IsOwner(OwnersOf(c, k), n) ==> SoundCache(k, bound, CacheOf(s, n)))
    && SoundMail(OwnersOf(c, k), k, bound, s.net)
  }

  /** All copies on all nodes. */
  ghost predicate Sound(c: Cluster, k: string, bound: nat, s: State)
    requires |Nodes(c, k, 2)| == 2
  {
    && (forall n :: SoundCache(k, bound, CacheOf(s, n)))
    && SoundMail(OwnersOf(c, k), k, bound, s.net)
  }

  lemma SoundLater(c: Cluster, k: string, bound: nat, bound': nat, s: State)
    requires |Nodes(c, k, 2)| == 2 && SoundStrays(c, k, bound, s) && bound <= bound'
    ensures SoundStrays(c, k, bound', s)
  {
  }

  /** The phase bounds the owners' versions. */
  lemma OwnersSound(c: Cluster, k: string, h: Past, n: nat, s: State)
    requires Pair(c, k) && Tracks(c, k, h, n, s) && SoundStrays(c, k, n + 1, s)
    ensures Sound(c, k, n + 1, s)
  {
    var o, l := OwnersOf(c, k), LocalOf(c, k, s);
    assert l.primary.Some? ==> SoundItem(k, n + 1, l.primary.value);
    assert l.replica.Some? ==> SoundItem(k, n + 1, l.replica.value);
  }

  // ---------------------------------------------------------------- steps that make no copies

  /** Caches lose items at most, and no replica message is sent. */
  ghost predicate NoNewCopies(k: string, s: State, s': State) {
    && (forall n :: k in CacheOf(s', n) ==> k in CacheOf(s, n) && CacheOf(s', n)[k] == CacheOf(s, n)[k])
    && (forall m :: m in s'.net && m.ReplicateMsg? ==> m in s.net)
  }

  lemma NoNewCopiesSound(c: Cluster, k: string, bound: nat, s: State, s': State)
    requires |Nodes(c, k, 2)| == 2 && SoundStrays(c, k, bound, s) && NoNewCopies(k, s, s')
    requires Common(OwnersOf(c, k), k, LocalOf(c, k, s'))
    ensures SoundStrays(c, k, bound, s')
  {
  }

  ghost predicate NoReplicates(sends: multiset<Message>) {
    forall m :: m in sends ==> !m.ReplicateMsg?
  }

  lemma PostsAreNoCopies(x: Session)
    ensures NoReplicates(FirstPost(x)) && NoReplicates(AfterOk(x)) && NoReplicates(AfterError(x))
  {
  }

  lemma DumpsAreNoCopies(c: Cluster, s: State, target: NodeTarget, node: string, key: string)
    ensures NoReplicates(SyncSend(s, target, node, key)) && NoReplicates(MigrateSend(c, s, node, key))
  {
  }

  lemma SendsAreNoCopies(k: string, s: State, sends: multiset<Message>, sessions: multiset<Session>)
    requires NoReplicates(sends)
    ensures NoNewCopies(k, s, s.(net := s.net + sends, sessions := sessions))
  {
    var s' := s.(net := s.net + sends, sessions := sessions);
    forall m | m in s'.net && m.ReplicateMsg? ensures m in s.net {
      assert m in s.net || m in sends;
    }
  }

  lemma SessionStepsMakeNoCopies(c: Cluster, k: string, s: State, e: Event)
    requires e.ClientSet? || e.ClientDelete? || e.PostOk? || e.PostError?
    ensures NoNewCopies(k, s, Next(c, s, e))
  {
    match e
    case ClientSet(key, v, t, failed) =>
      var x := NewSet(c, key, v, t, failed);
      PostsAreNoCopies(x);
      SendsAreNoCopies(k, s, FirstPost(x), s.sessions + multiset{x});
    case ClientDelete(key) =>
      var x := DeleteSession(key, Nodes(c, key, 2));
      PostsAreNoCopies(x);
      SendsAreNoCopies(k, s, FirstPost(x), s.sessions + multiset{x});
    case PostOk(x) =>
      PostsAreNoCopies(x);
      SendsAreNoCopies(k, s, AfterOk(x), s.sessions - multiset{x});
    case PostError(x) =>
      PostsAreNoCopies(x);
      SendsAreNoCopies(k, s, AfterError(x), s.sessions - multiset{x});
  }

  lemma OtherStepsMakeNoCopies(c: Cluster, k: string, s: State, e: Event)
    requires !e.Deliver? && !e.Read? && !e.ClientSet? && !e.ClientDelete? && !e.PostOk? && !e.PostError?
    ensures NoNewCopies(k, s, Next(c, s, e))
  {
    match e
    case SyncKey(target, node, key) =>
      DumpsAreNoCopies(c, s, target, node, key);
      SendsAreNoCopies(k, s, SyncSend(s, target, node, key), s.sessions);
    case MigrateKey(node, key) =>
      DumpsAreNoCopies(c, s, NodeTarget("", ""), node, key);
      SendsAreNoCopies(k, s, MigrateSend(c, s, node, key), s.sessions);
    case _ =>
  }

  // ---------------------------------------------------------------- reads and deliveries

  /** What a hot read sends is a copy of what the node holds. */
  lemma ReadSends(c: Cluster, k: string, bound: nat, s: State, node: string, key: string, isHot: bool)
    requires Pair(c, k) && Sound(c, k, bound, s) && AllFiled(s)
    ensures var oc := HandleGet(Nodes(c, key, 3), node, CacheOf(s, node), s.now, key, isHot);
            && SoundMail(OwnersOf(c, k), k, bound, oc.sends)
            && (k in oc.items ==> k in CacheOf(s, node) && oc.items[k] == CacheOf(s, node)[k])
  {
    if key in CacheOf(s, node) {
      assert Filed(CacheOf(s, node));
      assert SoundCache(k, bound, CacheOf(s, node));
    }
  }

  lemma InstallSound(c: Cluster, k: string, bound: nat, s: State, node: string, oc: Outcome)
    requires |Nodes(c, k, 2)| == 2 && SoundStrays(c, k, bound, s)
    requires !IsOwner(OwnersOf(c, k), node) ==> SoundCache(k, bound, oc.items)
    requires SoundMail(OwnersOf(c, k), k, bound, oc.sends)
    ensures SoundStrays(c, k, bound, Install(s, node, oc))
  {
    var s' := Install(s, node, oc);
    forall m | m in s'.net && KeyOf(m) == k && !Owned(OwnersOf(c, k), k, m) ensures SoundCopy(bound, m) {
      assert m in s.net || m in oc.sends;
    }
  }

  lemma ReadSound(c: Cluster, k: string, bound: nat, s: State, e: Event)
    requires Pair(c, k) && Sound(c, k, bound, s) && AllFiled(s) && e.Read?
    ensures SoundStrays(c, k, bound, Next(c, s, e))
  {
    if c.query(e.key).Some? && !Blank(c.query(e.key).value) {
      var key := c.query(e.key).value;
      var oc := HandleGet(Nodes(c, key, 3), e.node, CacheOf(s, e.node), s.now, key, e.isHot);
      ReadSends(c, k, bound, s, e.node, key, e.isHot);
      assert SoundCache(k, bound, CacheOf(s, e.node));
      InstallSound(c, k, bound, s, e.node, oc);
    }
  }

  /** The replica is the only node to which the handlers pass on a key. */
  lemma SendsGoToOwners(c: Cluster, k: string, items: Items, now: Time, m: Message)
    requires Pair(c, k) && KeyOf(m) == k && (m.SetMsg? || m.ReplicateMsg? || m.DeleteMsg? || m.ReplicateDeleteMsg?)
    ensures forall x :: x in Handle(c, items, now, m).sends ==> Owned(OwnersOf(c, k), k, x)
  {
  }

  lemma CopyStored(c: Cluster, k: string, bound: nat, items: Items, now: Time, m: Message)
    requires SoundCopy(bound, m) && m.key == k && SoundCache(k, bound, items)
    ensures SoundCache(k, bound, Handle(c, items, now, m).items)
  {
  }

  lemma DeliverOwnSound(c: Cluster, k: string, h: Past, n: nat, bound: nat, s: State, m: Message)
    requires Pair(c, k) && Tracks(c, k, h, n, s) && SoundStrays(c, k, bound, s) && m in s.net && KeyOf(m) == k
    ensures SoundStrays(c, k, bound, Receive(c, s, m))
  {
    var o, items := OwnersOf(c, k), CacheOf(s, m.to.nodeId);
    if !Owned(o, k, m) {
      assert SoundCopy(bound, m);
      CopyStored(c, k, bound, items, s.now, m);
    }
    OwnMailIsSimple(o, k, h, n, LocalOf(c, k, s), m);
    SendsGoToOwners(c, k, items, s.now, m);
    InstallSound(c, k, bound, s.(net := s.net - multiset{m}), m.to.nodeId, Handle(c, items, s.now, m));
  }

  lemma OwnMailIsSimple(o: OwnerPair, k: string, h: Past, n: nat, l: Local, m: Message)
    requires Phase(o, k, h, n, l) && m in l.net && KeyOf(m) == k
    ensures m.SetMsg? || m.ReplicateMsg? || m.DeleteMsg? || m.ReplicateDeleteMsg?
  {
  }

  lemma DeliverForeignSound(c: Cluster, k: string, bound: nat, s: State, m: Message)
    requires Pair(c, k) && SoundStrays(c, k, bound, s) && m in s.net && Foreign(c, k, m)
    ensures SoundStrays(c, k, bound, Receive(c, s, m))
  {
    var items := CacheOf(s, m.to.nodeId);
    var oc := Handle(c, items, s.now, m);
    HandleIsLocal(c, items, s.now, m, k);
    assert k in oc.items <==> Look(oc.items, k).Some?;
    assert k in items <==> Look(items, k).Some?;
    InstallSound(c, k, bound, s.(net := s.net - multiset{m}), m.to.nodeId, oc);
  }

  // ---------------------------------------------------------------- runs

  lemma SoundStep(c: Cluster, k: string, h: Past, n: nat, s: State, e: Event)
    requires Pair(c, k) && Tracks(c, k, h, n, s) && AllFiled(s) && Isolated(c, k, s) && SoundStrays(c, k, n + 1, s)
    requires Common(OwnersOf(c, k), k, LocalOf(c, k, Next(c, s, e)))
    ensures SoundStrays(c, k, n + 1, Next(c, s, e))
  {
    if e.Deliver? && e.message in s.net {
      if KeyOf(e.message) == k {
        DeliverOwnSound(c, k, h, n, n + 1, s, e.message);
      } else {
        DeliverForeignSound(c, k, n + 1, s, e.message);
      }
    } else if e.Read? {
      OwnersSound(c, k, h, n, s);
      ReadSound(c, k, n + 1, s, e);
    } else if !e.Deliver? {
      if e.ClientSet? || e.ClientDelete? || e.PostOk? || e.PostError? {
        SessionStepsMakeNoCopies(c, k, s, e);
      } else {
        OtherStepsMakeNoCopies(c, k, s, e);
      }
      NoNewCopiesSound(c, k, n + 1, s, Next(c, s, e));
    }
  }

  /** The key is in a phase, and its other copies are sound. */
  ghost predicate TracksSoundly(c: Cluster, k: string, h: Past, n: nat, s: State)
    requires |Nodes(c, k, 2)| == 2
  {
    Tracks(c, k, h, n, s) && SoundStrays(c, k, n + 1, s)
  }

  lemma StraysThen(c: Cluster, k: string, h: Past, n: nat, past: seq<Event>, e: Event, s': State)
    requires Pair(c, k) && Undisturbed(c, k, past) && TracksSoundly(c, k, h, n, Run(c, past))
    requires s' == Run(c, past + [e]) && Common(OwnersOf(c, k), k, LocalOf(c, k, s'))
    ensures SoundStrays(c, k, n + 1, s')
  {
    UndisturbedRunsIsolate(c, k, past);
    RunsFile(c, past);
    RunStep(c, past, e);
    SoundStep(c, k, h, n, Run(c, past), e);
  }

  lemma SoundThen(c: Cluster, k: string, h: Past, n: nat, past: seq<Event>, e: Event, h': Past, n': nat, s': State)
    requires Pair(c, k) && Undisturbed(c, k, past) && TracksSoundly(c, k, h, n, Run(c, past))
    requires CalmStep(c, k, Run(c, past), e) && s' == Run(c, past + [e])
    requires h' == Advance(c, k, h, e) && n' == n + (if e.ClientSet? && e.key == k then 1 else 0)
    ensures TracksSoundly(c, k, h', n', s')
  {
    PastStep(c, k, h, n, past, e, h', n', s');
    StraysThen(c, k, h, n, past, e, s');
    SoundLater(c, k, n + 1, n' + 1, s');
  }

  ghost predicate FollowsSoundly(c: Cluster, k: string, h: Past, n: nat, base: seq<Event>, events: seq<Event>)
    requires |Nodes(c, k, 2)| == 2
  {
    TracksSoundly(c, k, PastAfter(c, k, h, events), n + SetsOf(k, events), Run(c, base + events))
  }

  lemma SoundNext(c: Cluster, k: string, h: Past, n: nat, base: seq<Event>, events: seq<Event>)
    requires Pair(c, k) && events != [] && Undisturbed(c, k, base + events[..|events| - 1])
    requires FollowsSoundly(c, k, h, n, base, events[..|events| - 1])
    requires CalmStep(c, k, Run(c, base + events[..|events| - 1]), events[|events| - 1])
    ensures FollowsSoundly(c, k, h, n, base, events)
  {
    var before, e := events[..|events| - 1], events[|events| - 1];
    RunNext(c, base, events);
    HistoryNext(c, k, h, events);
    SoundThen(c, k, PastAfter(c, k, h, before), n + SetsOf(k, before), base + before, e,
              PastAfter(c, k, h, events), n + SetsOf(k, events), Run(c, base + events));
  }

  /** In every calm continuation, all copies of the key stay without expiry and within the number of sets. */
  lemma {:induction false} CalmRunIsSound(c: Cluster, k: string, h: Past, n: nat, base: seq<Event>, events: seq<Event>)
    requires Pair(c, k) && Undisturbed(c, k, base) && CalmAfter(c, k, base, events)
    requires TracksSoundly(c, k, h, n, Run(c, base))
    ensures FollowsSoundly(c, k, h, n, base, events)
  {
    if events == [] {
      assert base + events == base;
    } else {
      CalmRunIsSound(c, k, h, n, base, events[..|events| - 1]);
      CalmIsUndisturbed(c, k, base, events[..|events| - 1]);
      SoundNext(c, k, h, n, base, events);
    }
  }

  lemma EveryCalmRunIsSound(c: Cluster, k: string, events: seq<Event>)
    requires Pair(c, k) && Calm(c, k, events)
    ensures TracksSoundly(c, k, PastOf(c, k, events), SetsOf(k, events), Run(c, events))
    ensures Sound(c, k, SetsOf(k, events) + 1, Run(c, events))
  {
    CalmRunIsSound(c, k, NO_PAST, 0, [], events);
    assert [] + events == events;
    OwnersSound(c, k, PastOf(c, k, events), SetsOf(k, events), Run(c, events));
  }
}
