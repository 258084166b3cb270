/** What a routed read returns, compared with the simple map of client operations. */
module ProtocolReads {
  import opened Base
  import opened Ring
  import opened RingOrder
  import opened Cache
  import opened Protocol
  import opened Convergence
  import opened ConvergenceRuns
  import Safety = ProtocolSafety
  import Health
  import Router

  // ---------------------------------------------------------------- routed reads in a state

  function ReplyAt(s: State, node: string, k: string): Option<Router.Reply> {
    match Live(CacheOf(s, node), k, s.now)
    case Some(item) => Some(Router.Reply(item.key, item.value, TTLRemaining(item, s.now), item.version))
    case None => None
  }

  /** What a node answers to a read of `text`, which it reads from a query string. */
  function AnswerTo(c: Cluster, s: State, node: string, text: string): Option<Router.Reply> {
    match c.query(text)
    case Some(key) => if Blank(key) then None else ReplyAt(s, node, key)
    case None => None
  }

  /** Both owners are reachable and answer from their caches. */
  ghost function Reachable(c: Cluster, text: string, s: State): Router.Network
    requires |Nodes(c, text, 2)| == 2
  {
    var o := OwnersOf(c, text);
    addr =>
      if addr == o.p.addr then AnswerTo(c, s, o.p.nodeId, text)
      else if addr == o.r.addr then AnswerTo(c, s, o.r.nodeId, text)
      else None
  }

  function ServedValue(r: Router.ReadResult): Option<string> {
    if r.Served? then Some(r.reply.value) else None
  }

  /** The value that `RouteGet` returns, `None` for a failed read. */
  ghost function RoutedValue(c: Cluster, k: string, members: Health.Members, s: State): Option<string>
    requires |Nodes(c, k, 2)| == 2
  {
    ServedValue(Router.Route(Nodes(c, k, 2), members, Reachable(c, k, s)))
  }

  ghost predicate PrimaryAlive(c: Cluster, k: string, members: Health.Members)
    requires |Nodes(c, k, 2)| == 2
  {
    Router.StateIn(members, OwnersOf(c, k).p.nodeId) == Health.Alive
  }

  ghost predicate ReplicaFailed(c: Cluster, k: string, members: Health.Members)
    requires |Nodes(c, k, 2)| == 2
  {
    Router.StateIn(members, OwnersOf(c, k).r.nodeId) == Health.Failed
  }

  /** What a read of `text` sees at a node: the value of the key as which the text arrives. */
  function ReadText(c: Cluster, s: State, node: string, text: string): Option<string> {
    match c.query(text)
    case Some(key) => if Blank(key) then None else ReadAt(s, node, key)
    case None => None
  }

  /** In every state: a routed read of `text` asks the owners of `text` for the key as which it arrives. */
  lemma ReadsAtOwners(c: Cluster, text: string, members: Health.Members, s: State)
    requires |Nodes(c, text, 2)| == 2 && OwnersOf(c, text).p.addr != OwnersOf(c, text).r.addr
    ensures var o := OwnersOf(c, text);
            var (p, r) := (ReadText(c, s, o.p.nodeId, text), ReadText(c, s, o.r.nodeId, text));
            RoutedValue(c, text, members, s) ==
            if PrimaryAlive(c, text, members) && p.Some? then p
            else if !ReplicaFailed(c, text, members) then r
            else None
  {
    Router.RouteCases(Nodes(c, text, 2), members, Reachable(c, text, s));
  }

  /** In every state: a routed read is served with what the serving node has stored under the key as which the text
      arrives: key, value, version and remaining seconds. */
  lemma RepliesAreStored(c: Cluster, text: string, members: Health.Members, s: State)
    requires |Nodes(c, text, 2)| == 2 && OwnersOf(c, text).p.addr != OwnersOf(c, text).r.addr
    ensures var r := Router.Route(Nodes(c, text, 2), members, Reachable(c, text, s));
            r.Served? ==>
              && c.query(text).Some?
              && (var found := Live(CacheOf(s, r.servedBy.nodeId), c.query(text).value, s.now);
                  && found.Some? && r.reply.key == found.value.key && r.reply.value == found.value.value
                  && r.reply.version == found.value.version && Shows(found.value, s.now, r.reply.ttlRemaining))
  {
    Router.ReadsFollowTheMonitor(Nodes(c, text, 2), members, Reachable(c, text, s));
    var r := Router.Route(Nodes(c, text, 2), members, Reachable(c, text, s));
    if r.Served? {
      AnswerIsStored(c, text, s, r.servedBy.nodeId, r.reply);
    }
  }

  lemma AnswerIsStored(c: Cluster, text: string, s: State, node: string, reply: Router.Reply)
    requires AnswerTo(c, s, node, text) == Some(reply)
    ensures c.query(text).Some?
    ensures var found := Live(CacheOf(s, node), c.query(text).value, s.now);
            && found.Some? && reply.key == found.value.key && reply.value == found.value.value
            && reply.version == found.value.version && Shows(found.value, s.now, reply.ttlRemaining)
  {
    var key := c.query(text).value;
    RemainingIsShown(Live(CacheOf(s, node), key, s.now).value, s.now);
  }

  // ---------------------------------------------------------------- refinement of the map

  /** What a read of a drained key returns, from the client operations, the lost first posts and the health states
      alone. */
  lemma RoutedReadIsDetermined(c: Cluster, k: string, events: seq<Event>, members: Health.Members)
    requires Pair(c, k) && Calm(c, k, events) && Quiet(c, k, Run(c, events))
    ensures var (reached, latest) := (Reached(c, k, events), At(Spec(events), k));
            RoutedValue(c, k, members, Run(c, events)) ==
            if PrimaryAlive(c, k, members) && reached.Some? then reached
            else if !ReplicaFailed(c, k, members) then latest
            else None
  {
    OwnersMatchTheMap(c, k, events);
    ReadsAtOwners(c, k, members, Run(c, events));
  }

  /** While the replica has not failed, a read returns the map's value, unless the primary is alive
      and the operations that reached it left another value there. */
  lemma ReadReturnsTheMapIff(c: Cluster, k: string, events: seq<Event>, members: Health.Members)
    requires Pair(c, k) && Calm(c, k, events) && Quiet(c, k, Run(c, events)) && !ReplicaFailed(c, k, members)
    ensures RoutedValue(c, k, members, Run(c, events)) == At(Spec(events), k) <==>
            !(PrimaryAlive(c, k, members) && Reached(c, k, events).Some?
              && Reached(c, k, events) != At(Spec(events), k))
  {
    RoutedReadIsDetermined(c, k, events, members);
  }

  /** In particular it does whenever the last operation on the key did not miss the primary, or the primary is not
      alive. */
  lemma ReadReturnsTheMap(c: Cluster, k: string, events: seq<Event>, members: Health.Members)
    requires Pair(c, k) && Calm(c, k, events) && Quiet(c, k, Run(c, events)) && !ReplicaFailed(c, k, members)
    requires !Missed(LastOp(c, k, events)) || !PrimaryAlive(c, k, members)
    ensures RoutedValue(c, k, members, Run(c, events)) == At(Spec(events), k)
  {
    RoutedReadIsDetermined(c, k, events, members);
    OwnersMatchTheMap(c, k, events);
  }

  /** Over every run at all, calm or not: a read of any text returns only what some client set for the key
      as which the text arrives. */
  lemma ReadsReturnClientValues(c: Cluster, text: string, events: seq<Event>, members: Health.Members)
    requires |Nodes(c, text, 2)| == 2
    ensures var v := RoutedValue(c, text, members, Run(c, events));
            v.Some? ==> c.query(text).Some? && Safety.ClientWrote(events, c.query(text).value, v.value)
  {
    var s, o, net := Run(c, events), OwnersOf(c, text), Reachable(c, text, Run(c, events));
    Router.RouteCases(Nodes(c, text, 2), members, net);
    AnswersAreClientValues(c, text, events, o.p.nodeId);
    AnswersAreClientValues(c, text, events, o.r.nodeId);
  }

  lemma AnswersAreClientValues(c: Cluster, text: string, events: seq<Event>, node: string)
    ensures var a := AnswerTo(c, Run(c, events), node, text);
            a.Some? ==> c.query(text).Some? && Safety.ClientWrote(events, c.query(text).value, a.value.value)
  {
    if c.query(text).Some? && c.query(text).value in CacheOf(Run(c, events), node) {
      Safety.StoredValuesAreClientsOwn(c, events, node, c.query(text).value);
    }
  }

  // ---------------------------------------------------------------- every operation can drain

  ghost predicate Settled(c: Cluster, k: string, events: seq<Event>)
    requires |Nodes(c, k, 2)| == 2
  {
    Calm(c, k, events) && Quiet(c, k, Run(c, events))
  }

  /** A calm run with the given messages and requests, map and past at its end. */
  ghost predicate Stage(c: Cluster, k: string, events: seq<Event>, net: multiset<Message>, sessions: multiset<Session>,
                        spec: map<string, string>, past: Past)
    requires |Nodes(c, k, 2)| == 2
  {
    && Calm(c, k, events)
    && Run(c, events).net == net && Run(c, events).sessions == sessions
    && Spec(events) == spec && PastOf(c, k, events) == past
  }

  lemma SpecThen(events: seq<Event>, e: Event)
    ensures Spec(events + [e]) == SpecStep(Spec(events), e)
  {
    assert (events + [e])[..|events|] == events;
  }

  lemma PastThen(c: Cluster, k: string, events: seq<Event>, e: Event)
    requires |Nodes(c, k, 2)| == 2
    ensures PastOf(c, k, events + [e]) == Advance(c, k, PastOf(c, k, events), e)
  {
    assert (events + [e])[..|events|] == events;
  }

  lemma CalmThen(c: Cluster, k: string, events: seq<Event>, e: Event)
    requires |Nodes(c, k, 2)| == 2 && Calm(c, k, events) && CalmStep(c, k, Run(c, events), e)
    ensures Calm(c, k, events + [e])
  {
    assert [] + events == events;
    assert (events + [e])[..|events|] == events;
  }

  lemma StageThen(c: Cluster, k: string, events: seq<Event>, e: Event)
    requires |Nodes(c, k, 2)| == 2 && Calm(c, k, events) && CalmStep(c, k, Run(c, events), e)
    ensures var s := Next(c, Run(c, events), e);
            Stage(c, k, events + [e], s.net, s.sessions, SpecStep(Spec(events), e),
                  Advance(c, k, PastOf(c, k, events), e))
  {
    CalmThen(c, k, events, e);
    RunStep(c, events, e);
    SpecThen(events, e);
    PastThen(c, k, events, e);
  }

  /** A request begins. */
  lemma BeginStage(c: Cluster, k: string, events: seq<Event>, e: Event, x: Session)
    requires Pair(c, k) && Settled(c, k, events)
    requires (e == ClientDelete(k) && x == DeleteSession(k, Nodes(c, k, 2)))
             || (e.ClientSet? && e == ClientSet(k, e.value, 0, e.primaryFailed)
               && x == NewSet(c, k, e.value, 0, e.primaryFailed))
    ensures var s := Run(c, events);
            Stage(c, k, events + [e], s.net + FirstPost(x), s.sessions + multiset{x}, SpecStep(Spec(events), e),
                  Advance(c, k, PastOf(c, k, events), e))
  {
    StageThen(c, k, events, e);
    assert Next(c, Run(c, events), e) == Begin(Run(c, events), x);
  }

  /** Its first post is answered, or fails. */
  lemma EndStage(c: Cluster, k: string, events: seq<Event>, net: multiset<Message>, sessions: multiset<Session>,
                 spec: map<string, string>, past: Past, x: Session, ok: bool)
    requires Pair(c, k) && Stage(c, k, events, net, sessions + multiset{x}, spec, past)
    requires x.SetSession? || !ok || DeleteMsg(OwnersOf(c, k).p, k) !in net
    ensures ok ==> Stage(c, k, events + [PostOk(x)], net + AfterOk(x), sessions, spec, past)
    ensures !ok ==> Stage(c, k, events + [PostError(x)], net + AfterError(x), sessions, spec, past)
  {
    assert sessions + multiset{x} - multiset{x} == sessions;
    StageThen(c, k, events, if ok then PostOk(x) else PostError(x));
  }

  lemma DeliverStage(c: Cluster, k: string, events: seq<Event>, rest: multiset<Message>, sessions: multiset<Session>,
                     spec: map<string, string>, past: Past, m: Message)
    requires Pair(c, k) && Stage(c, k, events, rest + multiset{m}, sessions, spec, past)
    ensures var s := Run(c, events);
            Stage(c, k, events + [Deliver(m)], rest + Handle(c, CacheOf(s, m.to.nodeId), s.now, m).sends, sessions,
                  spec, past)
  {
    assert rest + multiset{m} - multiset{m} == rest;
    StageThen(c, k, events, Deliver(m));
  }

  /** The first post of the last operation is lost. */
  lemma LoseStage(c: Cluster, k: string, events: seq<Event>, rest: multiset<Message>, sessions: multiset<Session>,
                  spec: map<string, string>, past: Past, m: Message)
    requires Pair(c, k) && Stage(c, k, events, rest + multiset{m}, sessions, spec, past) && !past.op.NoOp?
    requires IsFirstPost(OwnersOf(c, k), k, m)
    requires m.DeleteMsg? ==> DeleteSession(k, [OwnersOf(c, k).p, OwnersOf(c, k).r]) !in sessions
    ensures Stage(c, k, events + [Lose(m)], rest, sessions, spec,
                  Past(past.op.(missed := true), past.before, past.before))
  {
    assert rest + multiset{m} - multiset{m} == rest;
    StageThen(c, k, events, Lose(m));
  }

  /** The replica takes a message, which it does not answer with another. */
  lemma ReplicaStage(c: Cluster, k: string, events: seq<Event>, rest: multiset<Message>, sessions: multiset<Session>,
                     spec: map<string, string>, past: Past, m: Message)
    requires Pair(c, k) && Stage(c, k, events, rest + multiset{m}, sessions, spec, past)
    requires m.SetMsg? || m.ReplicateMsg? || m.DeleteMsg? || m.ReplicateDeleteMsg?
    requires m.to == OwnersOf(c, k).r && m.key == k && (m.SetMsg? ==> m.ttlSeconds == 0)
    ensures Stage(c, k, events + [Deliver(m)], rest, sessions, spec, past)
  {
    var s := Run(c, events);
    if m.SetMsg? {
      ReplicaHandlesSet(c, k, CacheOf(s, m.to.nodeId), s.now, m.value, 0);
    } else if !m.ReplicateMsg? {
      OwnersHandleDelete(c, k, CacheOf(s, m.to.nodeId), s.now);
    }
    DeliverStage(c, k, events, rest, sessions, spec, past, m);
    assert rest + multiset{} == rest;
  }

  /** The primary takes the set and passes it on to the replica. */
  lemma PrimaryStage(c: Cluster, k: string, events: seq<Event>, rest: multiset<Message>, sessions: multiset<Session>,
                     spec: map<string, string>, past: Past, first: Message)
    returns (m: Message)
    requires Pair(c, k) && Stage(c, k, events, rest + multiset{first}, sessions, spec, past)
    requires first.SetMsg? && first == SetMsg(OwnersOf(c, k).p, k, first.value, 0)
    ensures m.ReplicateMsg? && m.to == OwnersOf(c, k).r && m.key == k
    ensures Stage(c, k, events + [Deliver(first)], rest + multiset{m}, sessions, spec, past)
  {
    var s := Run(c, events);
    PrimaryHandlesSet(c, k, CacheOf(s, first.to.nodeId), s.now, first.value, 0);
    m := Replicate(OwnersOf(c, k), k, first.value,
                   Handle(c, CacheOf(s, first.to.nodeId), s.now, first).items[k].version);
    DeliverStage(c, k, events, rest, sessions, spec, past, first);
  }

  /** A later settled run with the same messages and requests, and the given map and value at the primary. */
  ghost predicate Drained(c: Cluster, k: string, events: seq<Event>, after: seq<Event>, spec: map<string, string>,
                          reached: Option<string>)
    requires |Nodes(c, k, 2)| == 2
  {
    && Settled(c, k, after) && Spec(after) == spec && Reached(c, k, after) == reached
    && Run(c, after).net == Run(c, events).net && Run(c, after).sessions == Run(c, events).sessions
  }

  lemma BackToQuiet(c: Cluster, k: string, events: seq<Event>, after: seq<Event>, spec: map<string, string>,
                    past: Past)
    requires Pair(c, k) && Settled(c, k, events)
    requires Stage(c, k, after, Run(c, events).net, Run(c, events).sessions, spec, past)
    ensures Drained(c, k, events, after, spec, past.primary)
  {
  }

  lemma PostsOfSet(c: Cluster, k: string, v: string)
    requires Pair(c, k)
    ensures FirstPost(NewSet(c, k, v, 0, false)) == multiset{SetMsg(OwnersOf(c, k).p, k, v, 0)}
    ensures AfterOk(NewSet(c, k, v, 0, false)) == multiset{SetMsg(OwnersOf(c, k).r, k, v, 0)}
    ensures AfterError(NewSet(c, k, v, 0, false)) == multiset{SetMsg(OwnersOf(c, k).r, k, v, 0)}
  {
  }

  lemma PostsOfDelete(c: Cluster, k: string)
    requires Pair(c, k)
    ensures FirstPost(DeleteSession(k, Nodes(c, k, 2))) == multiset{DeleteMsg(OwnersOf(c, k).p, k)}
    ensures AfterOk(DeleteSession(k, Nodes(c, k, 2))) == multiset{}
    ensures AfterError(DeleteSession(k, Nodes(c, k, 2))) == multiset{DeleteMsg(OwnersOf(c, k).r, k)}
  {
  }

  lemma SetDrains(c: Cluster, k: string, events: seq<Event>, v: string) returns (after: seq<Event>)
    requires Pair(c, k) && Settled(c, k, events)
    ensures Drained(c, k, events, after, Spec(events)[k := Stored(v)], Some(Stored(v)))
  {
    var o, s, e, x := OwnersOf(c, k), Run(c, events), ClientSet(k, v, 0, false), NewSet(c, k, v, 0, false);
    var spec, past := SpecStep(Spec(events), e), Advance(c, k, PastOf(c, k, events), e);
    var first, copy := SetMsg(o.p, k, v, 0), SetMsg(o.r, k, v, 0);
    PostsOfSet(c, k, v);
    BeginStage(c, k, events, e, x);
    after := events + [e];
    var m := PrimaryStage(c, k, after, s.net, s.sessions + multiset{x}, spec, past, first);
    after := after + [Deliver(first)];
    ReplicaStage(c, k, after, s.net, s.sessions + multiset{x}, spec, past, m);
    after := after + [Deliver(m)];
    EndStage(c, k, after, s.net, s.sessions, spec, past, x, true);
    after := after + [PostOk(x)];
    ReplicaStage(c, k, after, s.net, s.sessions, spec, past, copy);
    after := after + [Deliver(copy)];
    BackToQuiet(c, k, events, after, spec, past);
  }

  lemma DivertedSetDrains(c: Cluster, k: string, events: seq<Event>, v: string) returns (after: seq<Event>)
    requires Pair(c, k) && Settled(c, k, events)
    ensures Drained(c, k, events, after, Spec(events)[k := Stored(v)], Reached(c, k, events))
  {
    var s, e, x, m := Run(c, events), ClientSet(k, v, 0, true), NewSet(c, k, v, 0, true),
      SetMsg(OwnersOf(c, k).r, k, v, 0);
    var spec, past := SpecStep(Spec(events), e), Advance(c, k, PastOf(c, k, events), e);
    BeginStage(c, k, events, e, x);
    after := events + [e];
    EndStage(c, k, after, s.net + FirstPost(x), s.sessions, spec, past, x, true);
    after := after + [PostOk(x)];
    assert s.net + FirstPost(x) + AfterOk(x) == s.net + multiset{m};
    ReplicaStage(c, k, after, s.net, s.sessions, spec, past, m);
    after := after + [Deliver(m)];
    BackToQuiet(c, k, events, after, spec, past);
  }

  /** The first post of a set is lost, and the fallback goes to the replica. */
  lemma FallbackSetDrains(c: Cluster, k: string, events: seq<Event>, v: string) returns (after: seq<Event>)
    requires Pair(c, k) && Settled(c, k, events)
    ensures Drained(c, k, events, after, Spec(events)[k := Stored(v)], Reached(c, k, events))
  {
    var o, s, e, x := OwnersOf(c, k), Run(c, events), ClientSet(k, v, 0, false), NewSet(c, k, v, 0, false);
    var spec, past := SpecStep(Spec(events), e), Advance(c, k, PastOf(c, k, events), e);
    var first, m := SetMsg(o.p, k, v, 0), SetMsg(o.r, k, v, 0);
    BeginStage(c, k, events, e, x);
    after := events + [e];
    PostsOfSet(c, k, v);
    LoseStage(c, k, after, s.net, s.sessions + multiset{x}, spec, past, first);
    after := after + [Lose(first)];
    var missed := Past(SetOp(v, 0, true), past.before, past.before);
    EndStage(c, k, after, s.net, s.sessions, spec, missed, x, false);
    after := after + [PostError(x)];
    ReplicaStage(c, k, after, s.net, s.sessions, spec, missed, m);
    after := after + [Deliver(m)];
    BackToQuiet(c, k, events, after, spec, missed);
  }

  lemma DeleteDrains(c: Cluster, k: string, events: seq<Event>) returns (after: seq<Event>)
    requires Pair(c, k) && Settled(c, k, events)
    ensures Drained(c, k, events, after, Spec(events) - {k}, None)
  {
    var o, s, e, x := OwnersOf(c, k), Run(c, events), ClientDelete(k), DeleteSession(k, Nodes(c, k, 2));
    var spec, past := SpecStep(Spec(events), e), Advance(c, k, PastOf(c, k, events), e);
    var first, m := DeleteMsg(o.p, k), ReplicateDeleteMsg(o.r, k);
    BeginStage(c, k, events, e, x);
    after := events + [e];
    PostsOfDelete(c, k);
    OwnersHandleDelete(c, k, CacheOf(Run(c, after), o.p.nodeId), Run(c, after).now);
    DeliverStage(c, k, after, s.net, s.sessions + multiset{x}, spec, past, first);
    after := after + [Deliver(first)];
    assert Owned(o, k, first);
    EndStage(c, k, after, s.net + multiset{m}, s.sessions, spec, past, x, true);
    after := after + [PostOk(x)];
    assert s.net + multiset{m} + AfterOk(x) == s.net + multiset{m};
    ReplicaStage(c, k, after, s.net, s.sessions, spec, past, m);
    after := after + [Deliver(m)];
    BackToQuiet(c, k, events, after, spec, past);
  }

  /** The first post of a delete fails and is lost, and the fallback goes to the replica. */
  lemma FallbackDeleteDrains(c: Cluster, k: string, events: seq<Event>) returns (after: seq<Event>)
    requires Pair(c, k) && Settled(c, k, events)
    ensures Drained(c, k, events, after, Spec(events) - {k}, Reached(c, k, events))
  {
    var o, s, e, x := OwnersOf(c, k), Run(c, events), ClientDelete(k), DeleteSession(k, Nodes(c, k, 2));
    var spec, past := SpecStep(Spec(events), e), Advance(c, k, PastOf(c, k, events), e);
    var first, m := DeleteMsg(o.p, k), DeleteMsg(o.r, k);
    BeginStage(c, k, events, e, x);
    after := events + [e];
    PostsOfDelete(c, k);
    EndStage(c, k, after, s.net + multiset{first}, s.sessions, spec, past, x, false);
    after := after + [PostError(x)];
    ReplicaStage(c, k, after, s.net + multiset{first}, s.sessions, spec, past, m);
    after := after + [Deliver(m)];
    LoseStage(c, k, after, s.net, s.sessions, spec, past, first);
    after := after + [Lose(first)];
    BackToQuiet(c, k, events, after, spec, Past(DelOp(true), past.before, past.before));
  }

  /** The exception is real. On any cluster, after one set and then one diverted set of another value,
      all delivered, a read through the recovered primary returns the first value. */
  lemma StaleReadAfterDivertedSet(c: Cluster, k: string, v1: string, v2: string, members: Health.Members)
    returns (events: seq<Event>)
    requires Pair(c, k) && Stored(v1) != Stored(v2) && PrimaryAlive(c, k, members)
    ensures Settled(c, k, events)
    ensures At(Spec(events), k) == Some(Stored(v2)) && RoutedValue(c, k, members, Run(c, events)) == Some(Stored(v1))
  {
    assert Settled(c, k, []);
    var first := SetDrains(c, k, [], v1);
    events := DivertedSetDrains(c, k, first, v2);
    RoutedReadIsDetermined(c, k, events, members);
  }

  /** So is the one of a delete: when its first post is lost, a read through the primary, which is alive, returns
      the deleted value. */
  lemma StaleReadAfterFallbackDelete(c: Cluster, k: string, v: string, members: Health.Members)
    returns (events: seq<Event>)
    requires Pair(c, k) && PrimaryAlive(c, k, members)
    ensures Settled(c, k, events)
    ensures At(Spec(events), k) == None && RoutedValue(c, k, members, Run(c, events)) == Some(Stored(v))
  {
    assert Settled(c, k, []);
    var first := SetDrains(c, k, [], v);
    events := FallbackDeleteDrains(c, k, first);
    RoutedReadIsDetermined(c, k, events, members);
  }

  // ---------------------------------------------------------------- texts that arrive as another key

  /** After every run: a delete of `text` takes the key as which it arrives from the primary of `text`. */
  lemma DeleteActsOnArrivedKey(c: Cluster, events: seq<Event>, text: string, key: string)
    requires text != "" && Nodes(c, text, 2) != [] && c.query(text) == Some(key) && !Blank(key)
    ensures var p := Nodes(c, text, 2)[0];
            var s := Run(c, events + [ClientDelete(text)] + [Deliver(DeleteMsg(p, text))]);
            ReadAt(s, p.nodeId, key).None?
  {
    RunStep(c, events, ClientDelete(text));
    RunStep(c, events + [ClientDelete(text)], Deliver(DeleteMsg(Nodes(c, text, 2)[0], text)));
    DeleteDelivered(c, Next(c, Run(c, events), ClientDelete(text)), Nodes(c, text, 2)[0], text, key);
  }

  lemma DeleteDelivered(c: Cluster, s: State, node: NodeTarget, text: string, key: string)
    requires DeleteMsg(node, text) in s.net && c.query(text) == Some(key) && !Blank(key)
    ensures ReadAt(Next(c, s, Deliver(DeleteMsg(node, text))), node.nodeId, key).None?
  {
  }

  lemma SpecOfStoreRun(c: Cluster, key: string, value: string)
    requires Nodes(c, key, 2) != []
    ensures Spec(Safety.StoreRun(c, key, value)) == map[key := Stored(value)]
  {
    var e := ClientSet(key, value, 0, false);
    SpecThen([], e);
    SpecThen([] + [e], Deliver(SetMsg(Nodes(c, key, 2)[0], key, value, 0)));
  }

  /** The map does not lose `key` by a delete of another text. */
  lemma SpecKeepsKey(events: seq<Event>, text: string, key: string, m: Message)
    requires text != key
    ensures At(Spec(events + [ClientDelete(text)] + [Deliver(m)]), key) == At(Spec(events), key)
  {
    SpecThen(events, ClientDelete(text));
    SpecThen(events + [ClientDelete(text)], Deliver(m));
  }

  lemma StoredForKeyOnly(c: Cluster, text: string, key: string, value: string)
    requires Nodes(c, key, 2) != [] && text != key
    ensures !Safety.ClientWrote(Safety.StoreRun(c, key, value), text, Stored(value))
  {
  }

  /** So a text that arrives as another key deletes that key, which no client asked for, and reads it. */
  lemma TextsDeleteAndReadOtherKeys(c: Cluster, text: string, key: string, value: string, members: Health.Members)
    requires text != "" && text != key && c.query(text) == Some(key) && !Blank(key)
    requires |Nodes(c, text, 2)| == 2 && OwnersOf(c, text).p.addr != OwnersOf(c, text).r.addr
             && PrimaryAlive(c, text, members)
    requires Nodes(c, key, 2) != [] && Nodes(c, key, 2)[0] == OwnersOf(c, text).p
    ensures var stored := Safety.StoreRun(c, key, value);
            var deleted := stored + [ClientDelete(text)] + [Deliver(DeleteMsg(OwnersOf(c, text).p, text))];
            && RoutedValue(c, text, members, Run(c, stored)) == Some(Stored(value))
            && !Safety.ClientWrote(stored, text, Stored(value))
            && ReadAt(Run(c, deleted), OwnersOf(c, text).p.nodeId, key).None?
            && At(Spec(deleted), key) == Some(Stored(value))
  {
    var stored, p := Safety.StoreRun(c, key, value), OwnersOf(c, text).p;
    StoredForKeyOnly(c, text, key, value);
    StoredTextIsRead(c, text, key, value, members);
    DeleteActsOnArrivedKey(c, stored, text, key);
    SpecOfStoreRun(c, key, value);
    SpecKeepsKey(stored, text, key, DeleteMsg(p, text));
  }

  lemma StoredTextIsRead(c: Cluster, text: string, key: string, value: string, members: Health.Members)
    requires c.query(text) == Some(key) && !Blank(key) && |Nodes(c, text, 2)| == 2
    requires OwnersOf(c, text).p.addr != OwnersOf(c, text).r.addr && PrimaryAlive(c, text, members)
    requires Nodes(c, key, 2) != [] && Nodes(c, key, 2)[0] == OwnersOf(c, text).p
    ensures RoutedValue(c, text, members, Run(c, Safety.StoreRun(c, key, value))) == Some(Stored(value))
  {
    Safety.StoreAtPrimary(c, key, value);
    ReadsAtOwners(c, text, members, Run(c, Safety.StoreRun(c, key, value)));
  }

  // ---------------------------------------------------------------- clusters that come from a ring

  /** Every member has an address of its own. */
  ghost predicate Addressed(ring: RingState) {
    && (forall x :: x in ring.nodes ==> AddrOf(ring.addrs, x) != "")
    && (forall x, y :: x in ring.nodes && y in ring.nodes && AddrOf(ring.addrs, x) == AddrOf(ring.addrs, y) ==> x == y)
  }

  ghost predicate ListsMembers(ring: RingState, ids: seq<string>) {
    && |ids| == |ring.nodes|
    && (forall i :: 0 <= i < |ids| ==> ids[i] in ring.nodes)
    && (forall i, j :: 0 <= i < j < |ids| ==> ids[i] != ids[j])
  }

  lemma PreferenceListsMembers(p: Params, ring: RingState, key: string)
    requires Canon(p, ring) && p.vnodes > 0
    ensures ListsMembers(ring, Preference(p, ring, key))
  {
    var ids, rank := Preference(p, ring, key), Distance(p, HashOf(p, key));
    PreferenceIsClockwise(p, ring, key);
    OrderLength(rank, ring.nodes, ids);
    RankedDistinct(rank, ids);
    forall i | 0 <= i < |ids| ensures ids[i] in ring.nodes {
      assert ids[i] in ids;
    }
  }

  lemma PairFromMembers(c: Cluster, key: string, ring: RingState, ids: seq<string>)
    requires c.route(key) == Targets(ring, ids) && ListsMembers(ring, ids) && |ring.nodes| >= 2
    requires !Blank(key) && Addressed(ring) && c.query(key) == Some(key)
    ensures Pair(c, key)
  {
  }

  lemma QueryOfRing(p: Params, ring: RingState, query: string -> Option<string>, key: string)
    ensures ClusterOf(p, ring, query).query(key) == query(key)
  {
  }

  lemma PairArrives(c: Cluster, key: string)
    requires Pair(c, key)
    ensures c.query(key) == Some(key)
  {
  }

  lemma RingPair(p: Params, ring: RingState, query: string -> Option<string>, key: string, c: Cluster)
    requires Canon(p, ring) && p.vnodes > 0 && |ring.nodes| >= 2 && !Blank(key) && Addressed(ring)
    requires c.route(key) == Targets(ring, Preference(p, ring, key)) && c.query(key) == Some(key)
    ensures Pair(c, key)
  {
    PreferenceListsMembers(p, ring, key);
    PairFromMembers(c, key, ring, Preference(p, ring, key));
  }

  /** On a ring of at least two members with proper addresses, the statements about pairs apply to every
      non-blank key that arrives as it was sent; `Query.ArrivesUnchangedIff` says which keys do. */
  lemma RingGivesPairs(p: Params, ring: RingState, query: string -> Option<string>, key: string)
    requires Canon(p, ring) && p.vnodes > 0 && |ring.nodes| >= 2 && !Blank(key) && Addressed(ring)
    ensures Pair(ClusterOf(p, ring, query), key) <==> query(key) == Some(key)
  {
    var c := ClusterOf(p, ring, query);
    QueryOfRing(p, ring, query, key);
    RouteOfRing(p, ring, query, key);
    if query(key) == Some(key) {
      RingPair(p, ring, query, key, c);
    }
    if Pair(c, key) {
      PairArrives(c, key);
    }
  }
}
