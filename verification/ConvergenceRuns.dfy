/** The protocol refines a simple map, as long as a key's operations do not overlap.

All statements are about one key `k` of a cluster with two owners for it, a key that survives a query
string. The run may do anything to other keys, except delete a text that arrives as `k`. A client
operation on `k` starts only when the previous one is fully delivered; its messages arrive in any order.
Posts about `k` may fail: the first post of an operation may time out, and may be lost; then the gateway
turns to the replica. No other message about `k` is lost, no owner crashes and no dump copies the key.
*/
module ConvergenceRuns {
  import opened Base
  import opened Ring
  import opened Cache
  import opened Protocol
  import opened Convergence
  import Safety = ProtocolSafety

  function OwnersOf(c: Cluster, k: string): OwnerPair
    requires |Nodes(c, k, 2)| == 2
  {
    OwnerPair(Nodes(c, k, 2)[0], Nodes(c, k, 2)[1])
  }

  /** A key that arrives as it was sent, with two owners that have an address each, and a third node that
      is neither. */
  ghost predicate Pair(c: Cluster, k: string) {
    && !Blank(k) && c.query(k) == Some(k)
    && |Nodes(c, k, 2)| == 2
    && Proper(OwnersOf(c, k))
    && (|Nodes(c, k, 3)| > 2 ==>
          Nodes(c, k, 3)[2].nodeId != Nodes(c, k, 2)[0].nodeId && Nodes(c, k, 3)[2].nodeId != Nodes(c, k, 2)[1].nodeId)
  }

  function Look(items: Items, k: string): Option<Item> {
    if k in items then Some(items[k]) else None
  }

  ghost function LocalOf(c: Cluster, k: string, s: State): Local
    requires |Nodes(c, k, 2)| == 2
  {
    Local(Look(CacheOf(s, Nodes(c, k, 2)[0].nodeId), k), Look(CacheOf(s, Nodes(c, k, 2)[1].nodeId), k), s.net,
          s.sessions)
  }

  /** Everything about the key that was sent to an owner has arrived, and no request about it is open. */
  ghost predicate Quiet(c: Cluster, k: string, s: State)
    requires |Nodes(c, k, 2)| == 2
  {
    QuietLocal(OwnersOf(c, k), k, LocalOf(c, k, s))
  }

  /** A delete of `text` can act on `k`: at the node that receives it, or at the replica it is passed on to,
      which reads the key from a query string once more. */
  predicate Reaches(c: Cluster, text: string, k: string) {
    text == k || c.query(text) == Some(k) || (c.query(text).Some? && c.query(c.query(text).value) == Some(k))
  }

  /** A set or delete of the key on its way to the primary. */
  predicate IsFirstPost(o: OwnerPair, k: string, m: Message) {
    m.to == o.p && KeyOf(m) == k && (m.SetMsg? || m.DeleteMsg?)
  }

  /** A delete is answered only after the primary has taken it. A first post may be lost; a lost delete is taken
      out of the network only after the gateway has given up waiting for it. */
  ghost predicate CalmStep(c: Cluster, k: string, s: State, e: Event)
    requires |Nodes(c, k, 2)| == 2
  {
    var o := OwnersOf(c, k);
    match e
    case ClientSet(key, _, ttl, _) => key == k ==> ttl <= 0 && Quiet(c, k, s)
    case ClientDelete(text) => Reaches(c, text, k) ==> text == k && Quiet(c, k, s)
    case PostOk(x) => x.DeleteSession? && x.key == k ==> DeleteMsg(o.p, k) !in s.net
    case Lose(m) =>
      Owned(o, k, m) ==>
        m in s.net && IsFirstPost(o, k, m) && (m.DeleteMsg? ==> DeleteSession(k, [o.p, o.r]) !in s.sessions)
    case Crash(node) => node != o.p.nodeId && node != o.r.nodeId
    case SyncKey(_, _, key) => key != k
    case MigrateKey(_, key) => key != k
    case _ => true
  }

  /** Every one of `events`, which come after `base`, is calm. */
  ghost predicate CalmAfter(c: Cluster, k: string, base: seq<Event>, events: seq<Event>)
    requires |Nodes(c, k, 2)| == 2
  {
    events != [] ==>
      && CalmAfter(c, k, base, events[..|events| - 1])
      && CalmStep(c, k, Run(c, base + events[..|events| - 1]), events[|events| - 1])
  }

  ghost predicate Calm(c: Cluster, k: string, events: seq<Event>)
    requires |Nodes(c, k, 2)| == 2
  {
    CalmAfter(c, k, [], events)
  }

  // ---------------------------------------------------------------- the simple map

  function SpecStep(m: map<string, string>, e: Event): map<string, string> {
    match e
    case ClientSet(key, value, _, _) => m[key := Stored(value)]
    case ClientDelete(key) => m - {key}
    case _ => m
  }

  function SpecAfter(m: map<string, string>, events: seq<Event>): map<string, string> {
    if events == [] then m else SpecStep(SpecAfter(m, events[..|events| - 1]), events[|events| - 1])
  }

  /** The simple map: sets and deletes in the order in which clients issued them. */
  function Spec(events: seq<Event>): map<string, string> {
    SpecAfter(map[], events)
  }

  function At(m: map<string, string>, k: string): Option<string> {
    if k in m then Some(m[k]) else None
  }

  function SetsOf(k: string, events: seq<Event>): nat {
    if events == [] then 0
    else
      var e := events[|events| - 1];
      SetsOf(k, events[..|events| - 1]) + if e.ClientSet? && e.key == k then 1 else 0
  }

  /** How an event moves a key's past on. An operation misses the primary if it is a set while the primary is
      marked as failed, or if its first post is lost. */
  function Advance(c: Cluster, k: string, h: Past, e: Event): Past
    requires |Nodes(c, k, 2)| == 2
  {
    match e
    case ClientSet(key, v, t, failed) =>
      if key != k then h
      else if failed then Past(SetOp(v, t, true), h.primary, h.primary)
      else Past(SetOp(v, t, false), Some(Stored(v)), h.primary)
    case ClientDelete(key) => if key != k then h else Past(DelOp(false), None, h.primary)
    case Lose(m) =>
      if IsFirstPost(OwnersOf(c, k), k, m) && !h.op.NoOp? then Past(h.op.(missed := true), h.before, h.before) else h
    case _ => h
  }

  function PastAfter(c: Cluster, k: string, h: Past, events: seq<Event>): Past
    requires |Nodes(c, k, 2)| == 2
  {
    if events == [] then h else Advance(c, k, PastAfter(c, k, h, events[..|events| - 1]), events[|events| - 1])
  }

  const NO_PAST: Past := Past(NoOp, None, None)

  /** The past of the key after a whole run. */
  function PastOf(c: Cluster, k: string, events: seq<Event>): Past
    requires |Nodes(c, k, 2)| == 2
  {
    PastAfter(c, k, NO_PAST, events)
  }

  function LastOp(c: Cluster, k: string, events: seq<Event>): Op
    requires |Nodes(c, k, 2)| == 2
  {
    PastOf(c, k, events).op
  }

  /** What the operations that reached the primary left there. */
  function Reached(c: Cluster, k: string, events: seq<Event>): Option<string>
    requires |Nodes(c, k, 2)| == 2
  {
    PastOf(c, k, events).primary
  }

  predicate Missed(op: Op) {
    !op.NoOp? && op.missed
  }

  lemma {:induction false} SpecIsLastOp(c: Cluster, k: string, m: map<string, string>, h: Past, events: seq<Event>)
    requires |Nodes(c, k, 2)| == 2 && At(m, k) == Left(h.op)
    ensures At(SpecAfter(m, events), k) == Left(PastAfter(c, k, h, events).op)
  {
    if events == [] {
    } else {
      SpecIsLastOp(c, k, m, h, events[..|events| - 1]);
    }
  }

  /** The primary has what the last operation left unless that operation missed it. */
  lemma {:induction false} ReachedUnlessMissed(c: Cluster, k: string, h: Past, events: seq<Event>)
    requires |Nodes(c, k, 2)| == 2 && (!Missed(h.op) ==> h.primary == Left(h.op))
    ensures var h' := PastAfter(c, k, h, events); !Missed(h'.op) ==> h'.primary == Left(h'.op)
  {
    if events == [] {
    } else {
      ReachedUnlessMissed(c, k, h, events[..|events| - 1]);
    }
  }

  // ---------------------------------------------------------------- deletes of other texts

  /** The message cannot act on `k`, nor can what its receiver sends on. */
  ghost predicate Foreign(c: Cluster, k: string, m: Message) {
    match m
    case DeleteMsg(_, text) => !Reaches(c, text, k)
    case ReplicateDeleteMsg(_, text) => text != k && c.query(text) != Some(k)
    case _ => KeyOf(m) != k
  }

  ghost predicate IsolatedMail(c: Cluster, k: string, net: multiset<Message>) {
    forall m :: m in net && KeyOf(m) != k ==> Foreign(c, k, m)
  }

  ghost predicate Isolated(c: Cluster, k: string, s: State) {
    && IsolatedMail(c, k, s.net)
    && (forall x :: x in s.sessions && x.DeleteSession? && x.key != k ==> !Reaches(c, x.key, k))
  }

  /** No client deletes another text that can act on `k`. */
  ghost predicate Undisturbed(c: Cluster, k: string, events: seq<Event>) {
    forall i :: 0 <= i < |events| && events[i].ClientDelete? && Reaches(c, events[i].key, k) ==> events[i].key == k
  }

  lemma HandleIsolated(c: Cluster, k: string, items: Items, now: Time, m: Message)
    requires c.query(k) == Some(k) && (KeyOf(m) != k ==> Foreign(c, k, m))
    ensures IsolatedMail(c, k, Handle(c, items, now, m).sends)
  {
  }

  lemma PostsIsolated(c: Cluster, k: string, x: Session)
    requires x.DeleteSession? && x.key != k ==> !Reaches(c, x.key, k)
    ensures IsolatedMail(c, k, FirstPost(x)) && IsolatedMail(c, k, AfterOk(x)) && IsolatedMail(c, k, AfterError(x))
  {
  }

  lemma BeginIsolated(c: Cluster, k: string, s: State, x: Session)
    requires Isolated(c, k, s) && (x.DeleteSession? && x.key != k ==> !Reaches(c, x.key, k))
    ensures Isolated(c, k, Begin(s, x))
  {
    PostsIsolated(c, k, x);
  }

  lemma EndIsolated(c: Cluster, k: string, s: State, x: Session)
    requires Isolated(c, k, s) && x in s.sessions
    ensures Isolated(c, k, End(s, x, AfterOk(x))) && Isolated(c, k, End(s, x, AfterError(x)))
  {
    PostsIsolated(c, k, x);
  }

  lemma ClientStepIsolated(c: Cluster, k: string, s: State, e: Event)
    requires Isolated(c, k, s) && (e.ClientSet? || (e.ClientDelete? && (Reaches(c, e.key, k) ==> e.key == k)))
    ensures Isolated(c, k, Next(c, s, e))
  {
    if e.key != "" && Nodes(c, e.key, 2) != [] {
      if e.ClientSet? {
        BeginIsolated(c, k, s, NewSet(c, e.key, e.value, e.ttlSeconds, e.primaryFailed));
      } else {
        BeginIsolated(c, k, s, DeleteSession(e.key, Nodes(c, e.key, 2)));
      }
    }
  }

  lemma ReceiveIsolated(c: Cluster, k: string, s: State, m: Message)
    requires c.query(k) == Some(k) && Isolated(c, k, s) && m in s.net
    ensures Isolated(c, k, Receive(c, s, m))
  {
    HandleIsolated(c, k, CacheOf(s, m.to.nodeId), s.now, m);
  }

  lemma StepIsolated(c: Cluster, k: string, s: State, e: Event)
    requires c.query(k) == Some(k) && Isolated(c, k, s) && (e.ClientDelete? && Reaches(c, e.key, k) ==> e.key == k)
    ensures Isolated(c, k, Next(c, s, e))
  {
    match e
    case ClientSet(_, _, _, _) => ClientStepIsolated(c, k, s, e);
    case ClientDelete(_) => ClientStepIsolated(c, k, s, e);
    case PostOk(x) => if x in s.sessions { EndIsolated(c, k, s, x); }
    case PostError(x) => if x in s.sessions { EndIsolated(c, k, s, x); }
    case Deliver(m) => if m in s.net { ReceiveIsolated(c, k, s, m); }
    case _ => QuietStepIsolated(c, k, s, e);
  }

  ghost predicate NoDeletes(sends: multiset<Message>) {
    forall m :: m in sends ==> !m.DeleteMsg? && !m.ReplicateDeleteMsg?
  }

  lemma CopiesAreNoDeletes(c: Cluster, s: State, node: string, key: string, isHot: bool, target: NodeTarget)
    ensures NoDeletes(HandleGet(Nodes(c, key, 3), node, CacheOf(s, node), s.now, key, isHot).sends)
    ensures NoDeletes(SyncSend(s, target, node, key)) && NoDeletes(MigrateSend(c, s, node, key))
  {
  }

  lemma MoreMail(c: Cluster, k: string, s: State, s': State, sends: multiset<Message>)
    requires Isolated(c, k, s) && NoDeletes(sends) && s'.net <= s.net + sends && s'.sessions == s.sessions
    ensures Isolated(c, k, s')
  {
    forall m | m in s'.net && KeyOf(m) != k ensures Foreign(c, k, m) {
      assert m in s.net || m in sends;
    }
  }

  lemma ReadIsolated(c: Cluster, k: string, s: State, node: string, text: string, isHot: bool)
    requires Isolated(c, k, s)
    ensures Isolated(c, k, Next(c, s, Read(node, text, isHot)))
  {
    if c.query(text).Some? && !Blank(c.query(text).value) {
      var key := c.query(text).value;
      var oc := HandleGet(Nodes(c, key, 3), node, CacheOf(s, node), s.now, key, isHot);
      CopiesAreNoDeletes(c, s, node, key, isHot, NodeTarget("", ""));
      MoreMail(c, k, s, Install(s, node, oc), oc.sends);
    }
  }

  lemma SyncIsolated(c: Cluster, k: string, s: State, target: NodeTarget, node: string, key: string)
    requires Isolated(c, k, s)
    ensures Isolated(c, k, Next(c, s, SyncKey(target, node, key)))
  {
    var sends := SyncSend(s, target, node, key);
    CopiesAreNoDeletes(c, s, node, key, false, target);
    MoreMail(c, k, s, s.(net := s.net + sends), sends);
  }

  lemma MigrationIsolated(c: Cluster, k: string, s: State, node: string, key: string)
    requires Isolated(c, k, s)
    ensures Isolated(c, k, Next(c, s, MigrateKey(node, key)))
  {
    var sends := MigrateSend(c, s, node, key);
    CopiesAreNoDeletes(c, s, node, key, false, NodeTarget("", ""));
    MoreMail(c, k, s, s.(net := s.net + sends), sends);
  }

  /** The other steps send no deletes. */
  lemma QuietStepIsolated(c: Cluster, k: string, s: State, e: Event)
    requires Isolated(c, k, s)
    requires !(e.ClientSet? || e.ClientDelete? || e.PostOk? || e.PostError? || e.Deliver?)
    ensures Isolated(c, k, Next(c, s, e))
  {
    match e
    case Read(node, text, isHot) => ReadIsolated(c, k, s, node, text, isHot);
    case SyncKey(target, node, key) => SyncIsolated(c, k, s, target, node, key);
    case MigrateKey(node, key) => MigrationIsolated(c, k, s, node, key);
    case _ =>
  }

  lemma {:induction false} UndisturbedRunsIsolate(c: Cluster, k: string, events: seq<Event>)
    requires c.query(k) == Some(k) && Undisturbed(c, k, events)
    ensures Isolated(c, k, Run(c, events))
  {
    if events == [] {
    } else {
      UndisturbedRunsIsolate(c, k, events[..|events| - 1]);
      StepIsolated(c, k, Run(c, events[..|events| - 1]), events[|events| - 1]);
    }
  }

  lemma {:induction false} CalmIsUndisturbed(c: Cluster, k: string, base: seq<Event>, events: seq<Event>)
    requires |Nodes(c, k, 2)| == 2 && Undisturbed(c, k, base) && CalmAfter(c, k, base, events)
    ensures Undisturbed(c, k, base + events)
  {
    if events == [] {
      assert base + events == base;
    } else {
      CalmIsUndisturbed(c, k, base, events[..|events| - 1]);
      assert base + events == base + events[..|events| - 1] + [events[|events| - 1]];
    }
  }

  // ---------------------------------------------------------------- steps that leave the key alone

  ghost predicate Elsewhere(k: string, net: multiset<Message>) {
    forall m :: m in net ==> KeyOf(m) != k
  }

  /** A handler touches only the key it reads from its message, and sends only messages about that key. */
  lemma HandleIsLocal(c: Cluster, items: Items, now: Time, m: Message, k: string)
    requires Foreign(c, k, m)
    ensures Look(Handle(c, items, now, m).items, k) == Look(items, k)
    ensures Elsewhere(k, Handle(c, items, now, m).sends)
  {
  }

  lemma InstallLocal(c: Cluster, k: string, s: State, node: string, oc: Outcome)
    requires |Nodes(c, k, 2)| == 2
    ensures var l := LocalOf(c, k, Install(s, node, oc));
            && l.primary == (if node == OwnersOf(c, k).p.nodeId then Look(oc.items, k) else LocalOf(c, k, s).primary)
            && l.replica == (if node == OwnersOf(c, k).r.nodeId then Look(oc.items, k) else LocalOf(c, k, s).replica)
            && l.net == s.net + oc.sends && l.sessions == s.sessions
  {
  }

  ghost predicate Untouching(c: Cluster, k: string, s: State, s': State)
    requires |Nodes(c, k, 2)| == 2
  {
    Alike(OwnersOf(c, k), k, LocalOf(c, k, s), LocalOf(c, k, s'))
  }

  lemma ForeignReceive(c: Cluster, k: string, s: State, m: Message)
    requires Pair(c, k) && Common(OwnersOf(c, k), k, LocalOf(c, k, s)) && m in s.net && Foreign(c, k, m)
    ensures Untouching(c, k, s, Receive(c, s, m))
  {
    var oc := Handle(c, CacheOf(s, m.to.nodeId), s.now, m);
    HandleIsLocal(c, CacheOf(s, m.to.nodeId), s.now, m, k);
    InstallLocal(c, k, s.(net := s.net - multiset{m}), m.to.nodeId, oc);
  }

  /** A hot-key copy for the third node. */
  lemma StrayReceive(c: Cluster, k: string, s: State, m: Message)
    requires Pair(c, k) && Common(OwnersOf(c, k), k, LocalOf(c, k, s)) && m in s.net
    requires KeyOf(m) == k && !Owned(OwnersOf(c, k), k, m)
    ensures Untouching(c, k, s, Receive(c, s, m))
  {
  }

  ghost predicate AllFiled(s: State) {
    forall n :: n in s.caches ==> Filed(s.caches[n])
  }

  lemma ReadIsHarmless(c: Cluster, k: string, s: State, node: string, key: string, isHot: bool)
    requires Pair(c, k) && Common(OwnersOf(c, k), k, LocalOf(c, k, s)) && AllFiled(s)
    ensures Untouching(c, k, s,
                       Install(s, node, HandleGet(Nodes(c, key, 3), node, CacheOf(s, node), s.now, key, isHot)))
  {
  }

  lemma PostsConcernTheKey(x: Session, k: string)
    requires x.key != k
    ensures Elsewhere(k, FirstPost(x)) && Elsewhere(k, AfterOk(x)) && Elsewhere(k, AfterError(x))
  {
  }

  lemma ForeignMail(o: OwnerPair, k: string, l: Local, sends: multiset<Message>, sessions: multiset<Session>)
    requires Common(o, k, l) && Elsewhere(k, sends)
    requires forall y: Session :: y.key == k ==> sessions[y] == l.sessions[y]
    ensures Alike(o, k, l, l.(net := l.net + sends, sessions := sessions))
  {
  }

  lemma ForeignSession(c: Cluster, k: string, s: State, x: Session)
    requires Pair(c, k) && Common(OwnersOf(c, k), k, LocalOf(c, k, s)) && x.key != k
    ensures Untouching(c, k, s, Begin(s, x))
    ensures Untouching(c, k, s, End(s, x, AfterOk(x))) && Untouching(c, k, s, End(s, x, AfterError(x)))
  {
    PostsConcernTheKey(x, k);
    var o, l := OwnersOf(c, k), LocalOf(c, k, s);
    ForeignMail(o, k, l, FirstPost(x), s.sessions + multiset{x});
    ForeignMail(o, k, l, AfterOk(x), s.sessions - multiset{x});
    ForeignMail(o, k, l, AfterError(x), s.sessions - multiset{x});
  }

  lemma ForeignCopies(c: Cluster, k: string, s: State, target: NodeTarget, node: string, key: string)
    requires AllFiled(s) && key != k
    ensures Elsewhere(k, SyncSend(s, target, node, key)) && Elsewhere(k, MigrateSend(c, s, node, key))
  {
  }

  lemma CopiesAreHarmless(c: Cluster, k: string, s: State, e: Event)
    requires Pair(c, k) && Common(OwnersOf(c, k), k, LocalOf(c, k, s)) && AllFiled(s) && CalmStep(c, k, s, e)
    requires e.SyncKey? || e.MigrateKey?
    ensures Untouching(c, k, s, Next(c, s, e))
  {
    var o, l := OwnersOf(c, k), LocalOf(c, k, s);
    if e.SyncKey? {
      ForeignCopies(c, k, s, e.target, e.node, e.key);
      ForeignMail(o, k, l, SyncSend(s, e.target, e.node, e.key), s.sessions);
    } else {
      ForeignCopies(c, k, s, NodeTarget("", ""), e.node, e.key);
      ForeignMail(o, k, l, MigrateSend(c, s, e.node, e.key), s.sessions);
    }
  }

  /** Items that cannot expire survive a purge. */
  lemma PurgeIsHarmless(c: Cluster, k: string, s: State, node: string)
    requires Pair(c, k) && Common(OwnersOf(c, k), k, LocalOf(c, k, s))
    ensures Untouching(c, k, s, Next(c, s, Expire(node)))
  {
  }

  lemma LossIsHarmless(c: Cluster, k: string, s: State, m: Message)
    requires Pair(c, k) && Common(OwnersOf(c, k), k, LocalOf(c, k, s)) && !Owned(OwnersOf(c, k), k, m)
    ensures Untouching(c, k, s, Next(c, s, Lose(m)))
  {
  }

  lemma HousekeepingIsHarmless(c: Cluster, k: string, s: State, e: Event)
    requires Pair(c, k) && Common(OwnersOf(c, k), k, LocalOf(c, k, s)) && AllFiled(s) && CalmStep(c, k, s, e)
    requires e.Lose? ==> !Owned(OwnersOf(c, k), k, e.message)
    requires e.Lose? || e.Crash? || e.SyncKey? || e.MigrateKey? || e.Expire? || e.Tick?
    ensures Untouching(c, k, s, Next(c, s, e))
  {
    match e
    case Lose(m) => LossIsHarmless(c, k, s, m);
    case Expire(node) => PurgeIsHarmless(c, k, s, node);
    case SyncKey(_, _, _) => CopiesAreHarmless(c, k, s, e);
    case MigrateKey(_, _) => CopiesAreHarmless(c, k, s, e);
    case _ =>
  }

  // ---------------------------------------------------------------- deliveries to the owners

  lemma PrimaryHandlesSet(c: Cluster, k: string, items: Items, now: Time, v: string, t: int)
    requires Pair(c, k) && t <= 0
    ensures var oc := Handle(c, items, now, SetMsg(OwnersOf(c, k).p, k, v, t));
            && StoredSet(Look(items, k), k, v, Look(oc.items, k))
            && oc.sends == multiset{Replicate(OwnersOf(c, k), k, v, oc.items[k].version)}
  {
  }

  lemma ReplicaHandlesSet(c: Cluster, k: string, items: Items, now: Time, v: string, t: int)
    requires Pair(c, k) && t <= 0
    ensures var oc := Handle(c, items, now, SetMsg(OwnersOf(c, k).r, k, v, t));
            StoredSet(Look(items, k), k, v, Look(oc.items, k)) && oc.sends == multiset{}
  {
  }

  lemma ReplicaHandlesReplicate(c: Cluster, k: string, items: Items, now: Time, v: string, version: Version)
    requires Pair(c, k)
    ensures var oc := Handle(c, items, now, Replicate(OwnersOf(c, k), k, v, version));
            StoredReplica(Look(items, k), k, v, version, Look(oc.items, k)) && oc.sends == multiset{}
  {
  }

  lemma OwnersHandleDelete(c: Cluster, k: string, items: Items, now: Time)
    requires Pair(c, k)
    ensures var oc := Handle(c, items, now, DeleteMsg(OwnersOf(c, k).p, k));
            Look(oc.items, k).None? && oc.sends == multiset{ReplicateDeleteMsg(OwnersOf(c, k).r, k)}
    ensures var oc := Handle(c, items, now, DeleteMsg(OwnersOf(c, k).r, k));
            Look(oc.items, k).None? && oc.sends == multiset{}
    ensures var oc := Handle(c, items, now, ReplicateDeleteMsg(OwnersOf(c, k).r, k));
            Look(oc.items, k).None? && oc.sends == multiset{}
  {
  }

  ghost predicate Tracks(c: Cluster, k: string, h: Past, n: nat, s: State)
    requires |Nodes(c, k, 2)| == 2
  {
    Phase(OwnersOf(c, k), k, h, n, LocalOf(c, k, s))
  }

  /** The local effect of a delivery. */
  lemma ReceiveLocal(c: Cluster, k: string, s: State, m: Message)
    requires Pair(c, k) && m in s.net && m.to.nodeId in {OwnersOf(c, k).p.nodeId, OwnersOf(c, k).r.nodeId}
    ensures var oc, l := Handle(c, CacheOf(s, m.to.nodeId), s.now, m), LocalOf(c, k, s);
            LocalOf(c, k, Receive(c, s, m)) ==
            if m.to.nodeId == OwnersOf(c, k).p.nodeId
            then l.(primary := Look(oc.items, k), net := s.net - multiset{m} + oc.sends)
            else l.(replica := Look(oc.items, k), net := s.net - multiset{m} + oc.sends)
  {
  }

  lemma DeliverPrimarySet(c: Cluster, k: string, h: Past, n: nat, s: State, m: Message)
    requires Pair(c, k) && Tracks(c, k, h, n, s) && h.op.SetOp? && !h.op.missed
    requires m in s.net && m == SetMsg(OwnersOf(c, k).p, k, h.op.value, h.op.ttl)
    ensures Tracks(c, k, h, n, Receive(c, s, m))
  {
    var o, l := OwnersOf(c, k), LocalOf(c, k, s);
    var oc := Handle(c, CacheOf(s, o.p.nodeId), s.now, m);
    PrimaryHandlesSet(c, k, CacheOf(s, o.p.nodeId), s.now, h.op.value, h.op.ttl);
    ReceiveLocal(c, k, s, m);
    PrimaryTakesSet(o, k, h, n, l, Look(oc.items, k), LocalOf(c, k, Receive(c, s, m)));
  }

  lemma DeliverCopy(c: Cluster, k: string, h: Past, n: nat, s: State, m: Message)
    requires Pair(c, k) && Tracks(c, k, h, n, s) && h.op.SetOp?
    requires m in s.net && m == SetMsg(OwnersOf(c, k).r, k, h.op.value, h.op.ttl)
    ensures Tracks(c, k, h, n, Receive(c, s, m))
  {
    var o, l := OwnersOf(c, k), LocalOf(c, k, s);
    var oc := Handle(c, CacheOf(s, o.r.nodeId), s.now, m);
    ReplicaHandlesSet(c, k, CacheOf(s, o.r.nodeId), s.now, h.op.value, h.op.ttl);
    ReceiveLocal(c, k, s, m);
    var l' := LocalOf(c, k, Receive(c, s, m));
    assert l'.net == s.net - multiset{m};
    if h.op.missed {
      ReplicaTakesDivertedSet(o, k, h, n, l, Look(oc.items, k), l');
    } else {
      ReplicaTakesCopy(o, k, h, n, l, Look(oc.items, k), l');
    }
  }

  lemma DeliverReplicate(c: Cluster, k: string, h: Past, n: nat, s: State, m: Message)
    requires Pair(c, k) && Tracks(c, k, h, n, s) && h.op.SetOp? && !h.op.missed && LocalOf(c, k, s).primary.Some?
    requires m in s.net && m == Replicate(OwnersOf(c, k), k, h.op.value, LocalOf(c, k, s).primary.value.version)
    ensures Tracks(c, k, h, n, Receive(c, s, m))
  {
    var o, l := OwnersOf(c, k), LocalOf(c, k, s);
    var oc := Handle(c, CacheOf(s, o.r.nodeId), s.now, m);
    ReplicaHandlesReplicate(c, k, CacheOf(s, o.r.nodeId), s.now, h.op.value, l.primary.value.version);
    ReceiveLocal(c, k, s, m);
    var l' := LocalOf(c, k, Receive(c, s, m));
    assert l'.net == s.net - multiset{m};
    ReplicaTakesReplicate(o, k, h, n, l, Look(oc.items, k), l');
  }

  lemma DeliverPrimaryDelete(c: Cluster, k: string, h: Past, n: nat, s: State, m: Message)
    requires Pair(c, k) && Tracks(c, k, h, n, s) && h.op == DelOp(false)
    requires m in s.net && m == DeleteMsg(OwnersOf(c, k).p, k)
    ensures Tracks(c, k, h, n, Receive(c, s, m))
  {
    var o, l := OwnersOf(c, k), LocalOf(c, k, s);
    OwnersHandleDelete(c, k, CacheOf(s, o.p.nodeId), s.now);
    ReceiveLocal(c, k, s, m);
    PrimaryTakesDelete(o, k, h, n, l, LocalOf(c, k, Receive(c, s, m)));
  }

  lemma DeliverReplicaDelete(c: Cluster, k: string, h: Past, n: nat, s: State, m: Message)
    requires Pair(c, k) && Tracks(c, k, h, n, s) && h.op.DelOp? && m in s.net
    requires m == ReplicateDeleteMsg(OwnersOf(c, k).r, k) || m == DeleteMsg(OwnersOf(c, k).r, k)
    ensures Tracks(c, k, h, n, Receive(c, s, m))
  {
    var o, l := OwnersOf(c, k), LocalOf(c, k, s);
    OwnersHandleDelete(c, k, CacheOf(s, o.r.nodeId), s.now);
    ReceiveLocal(c, k, s, m);
    var l' := LocalOf(c, k, Receive(c, s, m));
    assert l'.net == s.net - multiset{m};
    ReplicaTakesDelete(o, k, h, n, l, m, l');
  }

  lemma DeliverDeletes(c: Cluster, k: string, h: Past, n: nat, s: State, m: Message)
    requires Pair(c, k) && Tracks(c, k, h, n, s) && h.op.DelOp? && m in s.net && Owned(OwnersOf(c, k), k, m)
    ensures Tracks(c, k, h, n, Receive(c, s, m))
  {
    if m == DeleteMsg(OwnersOf(c, k).p, k) {
      DeliverPrimaryDelete(c, k, h, n, s, m);
    } else {
      DeliverReplicaDelete(c, k, h, n, s, m);
    }
  }

  lemma DeliverOwned(c: Cluster, k: string, h: Past, n: nat, s: State, m: Message)
    requires Pair(c, k) && Tracks(c, k, h, n, s) && m in s.net && Owned(OwnersOf(c, k), k, m)
    ensures Tracks(c, k, h, n, Receive(c, s, m))
  {
    var o, l := OwnersOf(c, k), LocalOf(c, k, s);
    match h.op
    case SetOp(v, t, false) =>
      if m == SetMsg(o.p, k, v, t) {
        DeliverPrimarySet(c, k, h, n, s, m);
      } else if m == SetMsg(o.r, k, v, t) {
        DeliverCopy(c, k, h, n, s, m);
      } else {
        assert l.primary.Some? && m == Replicate(o, k, v, l.primary.value.version);
        DeliverReplicate(c, k, h, n, s, m);
      }
    case SetOp(_, _, true) => DeliverCopy(c, k, h, n, s, m);
    case DelOp(_) => DeliverDeletes(c, k, h, n, s, m);
    case NoOp =>
  }

  // ---------------------------------------------------------------- steps and runs

  lemma Same(c: Cluster, k: string, h: Past, n: nat, s: State, s': State)
    requires Pair(c, k) && Tracks(c, k, h, n, s) && Untouching(c, k, s, s')
    ensures Tracks(c, k, h, n, s')
  {
    AlikePhase(OwnersOf(c, k), k, h, n, LocalOf(c, k, s), LocalOf(c, k, s'));
  }

  lemma DeliverStep(c: Cluster, k: string, h: Past, n: nat, s: State, m: Message)
    requires Pair(c, k) && Tracks(c, k, h, n, s) && Isolated(c, k, s) && m in s.net
    ensures Tracks(c, k, h, n, Receive(c, s, m))
  {
    if Owned(OwnersOf(c, k), k, m) {
      DeliverOwned(c, k, h, n, s, m);
    } else {
      if KeyOf(m) == k {
        StrayReceive(c, k, s, m);
      } else {
        ForeignReceive(c, k, s, m);
      }
      Same(c, k, h, n, s, Receive(c, s, m));
    }
  }

  lemma EndLocal(c: Cluster, k: string, s: State, x: Session, sends: multiset<Message>)
    requires |Nodes(c, k, 2)| == 2
    ensures LocalOf(c, k, End(s, x, sends)) == Answered(LocalOf(c, k, s), x, sends)
  {
  }

  lemma EndOwn(c: Cluster, k: string, h: Past, n: nat, s: State, x: Session)
    requires Pair(c, k) && Tracks(c, k, h, n, s) && x in s.sessions && x.key == k
    ensures CalmStep(c, k, s, PostOk(x)) ==> Tracks(c, k, h, n, End(s, x, AfterOk(x)))
    ensures Tracks(c, k, h, n, End(s, x, AfterError(x)))
  {
    var o, l := OwnersOf(c, k), LocalOf(c, k, s);
    EndLocal(c, k, s, x, AfterOk(x));
    EndLocal(c, k, s, x, AfterError(x));
    if h.op.DelOp? {
      EndDeleting(o, k, h, n, l, x);
    } else if h.op.missed {
      EndDiverting(o, k, h, n, l, x);
    } else {
      EndSetting(o, k, h, n, l, x);
    }
  }

  lemma EndStep(c: Cluster, k: string, h: Past, n: nat, s: State, x: Session)
    requires Pair(c, k) && Tracks(c, k, h, n, s) && x in s.sessions
    ensures CalmStep(c, k, s, PostOk(x)) ==> Tracks(c, k, h, n, End(s, x, AfterOk(x)))
    ensures Tracks(c, k, h, n, End(s, x, AfterError(x)))
  {
    if x.key == k {
      EndOwn(c, k, h, n, s, x);
    } else {
      ForeignSession(c, k, s, x);
      Same(c, k, h, n, s, End(s, x, AfterOk(x)));
      Same(c, k, h, n, s, End(s, x, AfterError(x)));
    }
  }

  lemma LoseOwn(c: Cluster, k: string, h: Past, n: nat, s: State, m: Message)
    requires Pair(c, k) && Tracks(c, k, h, n, s) && Owned(OwnersOf(c, k), k, m) && CalmStep(c, k, s, Lose(m))
    ensures Tracks(c, k, Advance(c, k, h, Lose(m)), n, Next(c, s, Lose(m)))
  {
    var o, l := OwnersOf(c, k), LocalOf(c, k, s);
    assert LocalOf(c, k, Next(c, s, Lose(m))) == Without(l, m);
    if h.op.SetOp? {
      LoseSet(o, k, h, n, l);
    } else {
      LoseDelete(o, k, h, n, l);
    }
  }

  lemma SetStep(c: Cluster, k: string, h: Past, n: nat, s: State, v: string, t: int, failed: bool)
    requires Pair(c, k) && Tracks(c, k, h, n, s) && Quiet(c, k, s) && t <= 0
    ensures var e := ClientSet(k, v, t, failed); Tracks(c, k, Advance(c, k, h, e), n + 1, Next(c, s, e))
  {
    var o, l, e := OwnersOf(c, k), LocalOf(c, k, s), ClientSet(k, v, t, failed);
    assert Nodes(c, k, 2) == [o.p, o.r];
    assert LocalOf(c, k, Next(c, s, e)) == Started(l, SetSession(k, v, t, [o.p, o.r], failed));
    if failed {
      StartDivertedSet(o, k, h, n, l, v, t);
    } else {
      StartSet(o, k, h, n, l, v, t);
    }
  }

  lemma DeleteStep(c: Cluster, k: string, h: Past, n: nat, s: State)
    requires Pair(c, k) && Tracks(c, k, h, n, s) && Quiet(c, k, s)
    ensures Tracks(c, k, Advance(c, k, h, ClientDelete(k)), n, Next(c, s, ClientDelete(k)))
  {
    var o, l := OwnersOf(c, k), LocalOf(c, k, s);
    assert Nodes(c, k, 2) == [o.p, o.r];
    assert LocalOf(c, k, Next(c, s, ClientDelete(k))) == Started(l, DeleteSession(k, [o.p, o.r]));
    StartDelete(o, k, h, n, l);
  }

  ghost predicate ClientOp(k: string, e: Event) {
    (e.ClientSet? || e.ClientDelete?) && e.key == k
  }

  lemma ForeignBegin(c: Cluster, k: string, s: State, e: Event)
    requires Pair(c, k) && Common(OwnersOf(c, k), k, LocalOf(c, k, s))
    requires (e.ClientSet? || e.ClientDelete?) && e.key != k
    ensures Untouching(c, k, s, Next(c, s, e))
  {
    if e.key == "" || Nodes(c, e.key, 2) == [] {
      assert Next(c, s, e) == s;
    } else if e.ClientSet? {
      ForeignSession(c, k, s, NewSet(c, e.key, e.value, e.ttlSeconds, e.primaryFailed));
    } else {
      ForeignSession(c, k, s, DeleteSession(e.key, Nodes(c, e.key, 2)));
    }
  }

  /** The events that move the past of the key on. */
  ghost predicate Concerns(c: Cluster, k: string, e: Event)
    requires |Nodes(c, k, 2)| == 2
  {
    ClientOp(k, e) || (e.Lose? && Owned(OwnersOf(c, k), k, e.message))
  }

  /** Every other step keeps the phase. */
  lemma OtherStep(c: Cluster, k: string, h: Past, n: nat, s: State, e: Event)
    requires Pair(c, k) && Tracks(c, k, h, n, s) && AllFiled(s) && Isolated(c, k, s)
    requires CalmStep(c, k, s, e) && !Concerns(c, k, e)
    ensures Tracks(c, k, h, n, Next(c, s, e))
  {
    match e
    case Deliver(m) => if m in s.net { DeliverStep(c, k, h, n, s, m); }
    case PostOk(x) => if x in s.sessions { EndStep(c, k, h, n, s, x); }
    case PostError(x) => if x in s.sessions { EndStep(c, k, h, n, s, x); }
    case _ =>
      HarmlessStep(c, k, s, e);
      Same(c, k, h, n, s, Next(c, s, e));
  }

  lemma HarmlessStep(c: Cluster, k: string, s: State, e: Event)
    requires Pair(c, k) && Common(OwnersOf(c, k), k, LocalOf(c, k, s)) && AllFiled(s)
    requires CalmStep(c, k, s, e) && !Concerns(c, k, e) && !e.Deliver? && !e.PostOk? && !e.PostError?
    ensures Untouching(c, k, s, Next(c, s, e))
  {
    match e
    case Read(node, text, isHot) =>
      if c.query(text).Some? && !Blank(c.query(text).value) {
        ReadIsHarmless(c, k, s, node, c.query(text).value, isHot);
      }
    case ClientSet(_, _, _, _) => ForeignBegin(c, k, s, e);
    case ClientDelete(_) => ForeignBegin(c, k, s, e);
    case _ => HousekeepingIsHarmless(c, k, s, e);
  }

  lemma RunsFile(c: Cluster, events: seq<Event>)
    ensures AllFiled(Run(c, events))
  {
    Safety.EveryRunGood(c, events);
    var s, w := Run(c, events), Safety.Written(events);
    forall n | n in s.caches ensures Filed(s.caches[n]) {
      assert Safety.GoodItems(c, w, n, s.caches[n]);
      forall key | key in s.caches[n] ensures s.caches[n][key].key == key {
        assert Safety.GoodItem(c, w, n, key, s.caches[n][key]);
      }
    }
  }

  lemma FollowStep(c: Cluster, k: string, h: Past, n: nat, s: State, e: Event)
    requires Pair(c, k) && Tracks(c, k, h, n, s) && AllFiled(s) && Isolated(c, k, s) && CalmStep(c, k, s, e)
    ensures Tracks(c, k, Advance(c, k, h, e), n + (if e.ClientSet? && e.key == k then 1 else 0), Next(c, s, e))
  {
    if !Concerns(c, k, e) {
      OtherStep(c, k, h, n, s, e);
    } else if e.ClientSet? {
      SetStep(c, k, h, n, s, e.value, e.ttlSeconds, e.primaryFailed);
    } else if e.ClientDelete? {
      DeleteStep(c, k, h, n, s);
    } else {
      LoseOwn(c, k, h, n, s, e.message);
    }
  }

  ghost predicate Follows(c: Cluster, k: string, h: Past, n: nat, base: seq<Event>, events: seq<Event>)
    requires |Nodes(c, k, 2)| == 2
  {
    Tracks(c, k, PastAfter(c, k, h, events), n + SetsOf(k, events), Run(c, base + events))
  }

  /** From any state in which the key is in some phase, a calm run keeps it in the phase of its last operation. */
  lemma {:induction false} CalmRunFollows(c: Cluster, k: string, h: Past, n: nat, base: seq<Event>, events: seq<Event>)
    requires Pair(c, k) && Undisturbed(c, k, base) && CalmAfter(c, k, base, events)
    requires Tracks(c, k, h, n, Run(c, base))
    ensures Follows(c, k, h, n, base, events)
  {
    if events == [] {
      assert base + events == base;
    } else {
      var before := events[..|events| - 1];
      CalmRunFollows(c, k, h, n, base, before);
      CalmIsUndisturbed(c, k, base, before);
      FollowsNext(c, k, h, n, base, events);
    }
  }

  lemma HistoryNext(c: Cluster, k: string, h: Past, events: seq<Event>)
    requires |Nodes(c, k, 2)| == 2 && events != []
    ensures var (before, e) := (events[..|events| - 1], events[|events| - 1]);
            && PastAfter(c, k, h, events) == Advance(c, k, PastAfter(c, k, h, before), e)
            && SetsOf(k, events) == SetsOf(k, before) + (if e.ClientSet? && e.key == k then 1 else 0)
  {
  }

  lemma RunNext(c: Cluster, base: seq<Event>, events: seq<Event>)
    requires events != []
    ensures Run(c, base + events) == Run(c, base + events[..|events| - 1] + [events[|events| - 1]])
  {
    assert base + events == base + events[..|events| - 1] + [events[|events| - 1]];
  }

  lemma FollowsNext(c: Cluster, k: string, h: Past, n: nat, base: seq<Event>, events: seq<Event>)
    requires Pair(c, k) && events != [] && Undisturbed(c, k, base + events[..|events| - 1])
    requires Follows(c, k, h, n, base, events[..|events| - 1])
    requires CalmStep(c, k, Run(c, base + events[..|events| - 1]), events[|events| - 1])
    ensures Follows(c, k, h, n, base, events)
  {
    var before, e := events[..|events| - 1], events[|events| - 1];
    RunNext(c, base, events);
    HistoryNext(c, k, h, events);
    PastStep(c, k, PastAfter(c, k, h, before), n + SetsOf(k, before), base + before, e, PastAfter(c, k, h, events),
             n + SetsOf(k, events), Run(c, base + events));
  }

  /** One more event, after which the past, the number of sets and the state are the primed ones. */
  lemma PastStep(c: Cluster, k: string, h: Past, n: nat, past: seq<Event>, e: Event, h': Past, n': nat, s': State)
    requires Pair(c, k) && Undisturbed(c, k, past) && Tracks(c, k, h, n, Run(c, past))
    requires CalmStep(c, k, Run(c, past), e) && s' == Run(c, past + [e])
    requires h' == Advance(c, k, h, e) && n' == n + (if e.ClientSet? && e.key == k then 1 else 0)
    ensures Tracks(c, k, h', n', s')
  {
    UndisturbedRunsIsolate(c, k, past);
    RunsFile(c, past);
    RunStep(c, past, e);
    FollowStep(c, k, h, n, Run(c, past), e);
  }

  lemma EveryCalmRunFollows(c: Cluster, k: string, events: seq<Event>)
    requires Pair(c, k) && Calm(c, k, events)
    ensures Tracks(c, k, PastOf(c, k, events), SetsOf(k, events), Run(c, events))
  {
    CalmRunFollows(c, k, NO_PAST, 0, [], events);
    assert [] + events == events;
  }

  // ---------------------------------------------------------------- the theorems

  /** What a live read at the owner sees: the last stored value. */
  function ReadAt(s: State, node: string, k: string): Option<string> {
    ValueOf(Live(CacheOf(s, node), k, s.now))
  }

  lemma ReadsOfPhase(c: Cluster, k: string, h: Past, n: nat, s: State)
    requires Pair(c, k) && Tracks(c, k, h, n, s) && Quiet(c, k, s)
    ensures ReadAt(s, OwnersOf(c, k).p.nodeId, k) == h.primary && ReadAt(s, OwnersOf(c, k).r.nodeId, k) == Left(h.op)
  {
    QuietValues(OwnersOf(c, k), k, h, n, LocalOf(c, k, s));
  }

  /** From any state in which the key is in some phase: once a calm run is delivered, the replica holds what the
      simple map, continued from there, holds, and the primary what the operations that reached it left. */
  lemma OwnersMatchAfter(c: Cluster, k: string, h: Past, m: map<string, string>, n: nat, base: seq<Event>,
                         events: seq<Event>)
    requires Pair(c, k) && Undisturbed(c, k, base) && CalmAfter(c, k, base, events)
    requires Quiet(c, k, Run(c, base + events)) && Tracks(c, k, h, n, Run(c, base)) && At(m, k) == Left(h.op)
    ensures ReadAt(Run(c, base + events), OwnersOf(c, k).r.nodeId, k) == At(SpecAfter(m, events), k)
    ensures ReadAt(Run(c, base + events), OwnersOf(c, k).p.nodeId, k) == PastAfter(c, k, h, events).primary
  {
    CalmRunFollows(c, k, h, n, base, events);
    SpecIsLastOp(c, k, m, h, events);
    ReadsOfPhase(c, k, PastAfter(c, k, h, events), n + SetsOf(k, events), Run(c, base + events));
  }

  /** Once delivered, the replica holds what the simple map holds, and the primary what the operations that
      reached it left; that is the same unless the last operation missed the primary. */
  lemma OwnersMatchTheMap(c: Cluster, k: string, events: seq<Event>)
    requires Pair(c, k) && Calm(c, k, events) && Quiet(c, k, Run(c, events))
    ensures ReadAt(Run(c, events), OwnersOf(c, k).r.nodeId, k) == At(Spec(events), k)
    ensures ReadAt(Run(c, events), OwnersOf(c, k).p.nodeId, k) == Reached(c, k, events)
    ensures !Missed(LastOp(c, k, events)) ==> Reached(c, k, events) == At(Spec(events), k)
  {
    EveryCalmRunFollows(c, k, events);
    SpecIsLastOp(c, k, map[], NO_PAST, events);
    ReadsOfPhase(c, k, PastOf(c, k, events), SetsOf(k, events), Run(c, events));
    ReachedUnlessMissed(c, k, NO_PAST, events);
  }

  /** From any phase: after a drained set that reached the primary, both owners hold its value, and the replica's
      version is the primary's or the next one, as long as the 64-bit counter has not run out. */
  lemma VersionDriftAfter(c: Cluster, k: string, h: Past, n: nat, base: seq<Event>, events: seq<Event>)
    requires Pair(c, k) && Undisturbed(c, k, base) && CalmAfter(c, k, base, events)
    requires Quiet(c, k, Run(c, base + events)) && Tracks(c, k, h, n, Run(c, base))
    requires PastAfter(c, k, h, events).op.SetOp? && !PastAfter(c, k, h, events).op.missed
    requires n + SetsOf(k, events) < VERSIONS - 1
    ensures var (op, l) := (PastAfter(c, k, h, events).op, LocalOf(c, k, Run(c, base + events)));
            && Holds(l.primary, Stored(op.value)) && Holds(l.replica, Stored(op.value))
            && 0 <= l.replica.value.version - l.primary.value.version <= 1
            && 1 <= l.primary.value.version <= n + SetsOf(k, events)
  {
    CalmRunFollows(c, k, h, n, base, events);
    QuietVersions(OwnersOf(c, k), k, PastAfter(c, k, h, events), n + SetsOf(k, events),
                  LocalOf(c, k, Run(c, base + events)));
  }

  /** The same for runs from the start. */
  lemma VersionDriftIsBounded(c: Cluster, k: string, events: seq<Event>)
    requires Pair(c, k) && Calm(c, k, events) && Quiet(c, k, Run(c, events))
    requires LastOp(c, k, events).SetOp? && !LastOp(c, k, events).missed
    requires SetsOf(k, events) < VERSIONS - 1
    ensures var (op, l) := (LastOp(c, k, events), LocalOf(c, k, Run(c, events)));
            && Holds(l.primary, Stored(op.value)) && Holds(l.replica, Stored(op.value))
            && 0 <= l.replica.value.version - l.primary.value.version <= 1
            && 1 <= l.primary.value.version <= SetsOf(k, events)
  {
    EveryCalmRunFollows(c, k, events);
    QuietVersions(OwnersOf(c, k), k, PastOf(c, k, events), SetsOf(k, events), LocalOf(c, k, Run(c, events)));
  }
}
