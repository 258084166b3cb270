/** Self-healing: what the restart of an owner leaves of a key, and how operation goes on.

An owner that comes back runs the start-up loop over its peers. Here that happens to a key whose operations
are all delivered. The loop may restore the simple map's value or not; either way, new operations follow the
simple map again, from what the owners hold then.
*/
module ProtocolRecovery {
  import opened Base
  import opened Ring
  import opened Cache
  import opened Protocol
  import opened Convergence
  import opened ConvergenceRuns
  import opened KeyCopies
  import opened ProtocolReads
  import opened Dumps
  import Safety = ProtocolSafety
  import Health

  // ---------------------------------------------------------------- a key at rest

  /** A drained key, of which all copies are without expiry and within the bound. */
  ghost predicate AtRest(c: Cluster, k: string, bound: nat, s: State)
    requires |Nodes(c, k, 2)| == 2
  {
    Quiet(c, k, s) && Sound(c, k, bound, s)
  }

  /** A past after which the owners would hold these values. */
  function RestPast(replica: Option<string>, primary: Option<string>): Past {
    Past(if replica.Some? then SetOp(replica.value, 0, true) else DelOp(true), primary, primary)
  }

  lemma StoredTwice(v: string)
    ensures Stored(Stored(v)) == Stored(v)
  {
  }

  lemma StoredValue(c: Cluster, k: string, base: seq<Event>, node: string)
    requires k in CacheOf(Run(c, base), node)
    ensures Stored(CacheOf(Run(c, base), node)[k].value) == CacheOf(Run(c, base), node)[k].value
  {
    Safety.StoredValuesAreClientsOwn(c, base, node, k);
    var v := CacheOf(Run(c, base), node)[k].value;
    var i :| 0 <= i < |base| && base[i].ClientSet? && base[i].key == k && Stored(base[i].value) == v;
    StoredTwice(base[i].value);
  }

  /** Items of a key at rest do not expire, so a read sees what is stored. */
  lemma RestingReads(c: Cluster, k: string, bound: nat, s: State)
    requires Pair(c, k) && Sound(c, k, bound, s)
    ensures ReadAt(s, OwnersOf(c, k).p.nodeId, k) == ValueOf(LocalOf(c, k, s).primary)
    ensures ReadAt(s, OwnersOf(c, k).r.nodeId, k) == ValueOf(LocalOf(c, k, s).replica)
  {
    assert SoundCache(k, bound, CacheOf(s, OwnersOf(c, k).p.nodeId));
    assert SoundCache(k, bound, CacheOf(s, OwnersOf(c, k).r.nodeId));
  }

  lemma RestLocal(c: Cluster, k: string, bound: nat, s: State)
    requires Pair(c, k) && Sound(c, k, bound, s)
    ensures var l := LocalOf(c, k, s);
            && (l.primary.Some? ==> SoundItem(k, bound, l.primary.value))
            && (l.replica.Some? ==> SoundItem(k, bound, l.replica.value))
            && Common(OwnersOf(c, k), k, l)
  {
    assert SoundCache(k, bound, CacheOf(s, OwnersOf(c, k).p.nodeId));
    assert SoundCache(k, bound, CacheOf(s, OwnersOf(c, k).r.nodeId));
  }

  lemma RestPhase(o: OwnerPair, k: string, bound: nat, l: Local)
    requires QuietLocal(o, k, l) && Common(o, k, l)
    requires l.primary.Some? ==> SoundItem(k, bound, l.primary.value)
    requires l.replica.Some? ==> SoundItem(k, bound, l.replica.value)
                                 && Stored(l.replica.value.value) == l.replica.value.value
    ensures Phase(o, k, RestPast(ValueOf(l.replica), ValueOf(l.primary)), bound, l)
  {
    if l.replica.Some? {
      QuietMail(o, k, l.replica.value.value, 0, l);
    } else {
      QuietMail(o, k, "", 0, l);
    }
  }

  /** Whatever happened before, a key at rest is in a phase. */
  lemma RestIsAPhase(c: Cluster, k: string, bound: nat, base: seq<Event>)
    requires Pair(c, k) && AtRest(c, k, bound, Run(c, base))
    ensures var (s, o) := (Run(c, base), OwnersOf(c, k));
            TracksSoundly(c, k, RestPast(ReadAt(s, o.r.nodeId, k), ReadAt(s, o.p.nodeId, k)), bound, s)
  {
    var s, l := Run(c, base), LocalOf(c, k, Run(c, base));
    if l.replica.Some? {
      StoredValue(c, k, base, OwnersOf(c, k).r.nodeId);
    }
    RestingReads(c, k, bound, s);
    RestLocal(c, k, bound, s);
    RestPhase(OwnersOf(c, k), k, bound, l);
    SoundLater(c, k, bound, bound + 1, s);
  }

  /** After any run that leaves the key at rest, later calm operations follow the map, from what the replica
      held; once they are drained, the key is at rest again. */
  lemma RestResumes(c: Cluster, k: string, bound: nat, base: seq<Event>, m: map<string, string>, later: seq<Event>)
    requires Pair(c, k) && Undisturbed(c, k, base) && AtRest(c, k, bound, Run(c, base))
    requires ReadAt(Run(c, base), OwnersOf(c, k).r.nodeId, k) == At(m, k)
    requires CalmAfter(c, k, base, later) && Quiet(c, k, Run(c, base + later))
    ensures AtRest(c, k, bound + SetsOf(k, later) + 1, Run(c, base + later))
    ensures ReadAt(Run(c, base + later), OwnersOf(c, k).r.nodeId, k) == At(SpecAfter(m, later), k)
    ensures var h := RestPast(At(m, k), ReadAt(Run(c, base), OwnersOf(c, k).p.nodeId, k));
            ReadAt(Run(c, base + later), OwnersOf(c, k).p.nodeId, k) == PastAfter(c, k, h, later).primary
  {
    var h := RestPast(At(m, k), ReadAt(Run(c, base), OwnersOf(c, k).p.nodeId, k));
    RestIsAPhase(c, k, bound, base);
    RestValueStored(c, k, base, At(m, k));
    OwnersMatchAfter(c, k, h, m, bound, base, later);
    RestAgain(c, k, h, bound, base, later);
  }

  lemma RestValueStored(c: Cluster, k: string, base: seq<Event>, v: Option<string>)
    requires |Nodes(c, k, 2)| == 2 && ReadAt(Run(c, base), OwnersOf(c, k).r.nodeId, k) == v
    ensures Left(RestPast(v, None).op) == v
  {
    if v.Some? {
      StoredValue(c, k, base, OwnersOf(c, k).r.nodeId);
    }
  }

  lemma RestAgain(c: Cluster, k: string, h: Past, n: nat, base: seq<Event>, later: seq<Event>)
    requires Pair(c, k) && Undisturbed(c, k, base) && TracksSoundly(c, k, h, n, Run(c, base))
    requires CalmAfter(c, k, base, later) && Quiet(c, k, Run(c, base + later))
    ensures AtRest(c, k, n + SetsOf(k, later) + 1, Run(c, base + later))
  {
    CalmRunIsSound(c, k, h, n, base, later);
    OwnersSound(c, k, PastAfter(c, k, h, later), n + SetsOf(k, later), Run(c, base + later));
  }

  lemma SettledIsAtRest(c: Cluster, k: string, events: seq<Event>)
    requires Pair(c, k) && Settled(c, k, events)
    ensures AtRest(c, k, SetsOf(k, events) + 1, Run(c, events))
    ensures ReadAt(Run(c, events), OwnersOf(c, k).p.nodeId, k) == Reached(c, k, events)
    ensures ReadAt(Run(c, events), OwnersOf(c, k).r.nodeId, k) == At(Spec(events), k)
    ensures Undisturbed(c, k, events)
  {
    EveryCalmRunIsSound(c, k, events);
    OwnersMatchTheMap(c, k, events);
    CalmIsUndisturbed(c, k, [], events);
    assert [] + events == events;
  }

  // ---------------------------------------------------------------- restarts keep a key at rest

  /** A restart without a crash is a start-up loop in a node that kept its cache. */
  function Rebooted(c: Cluster, s: State, target: NodeTarget, crashed: bool): State {
    if crashed then Next(c, s, Crash(target.nodeId)) else s
  }

  /** The restart of `target` as a continuation of a run. */
  function Restart(c: Cluster, past: seq<Event>, k: string, target: NodeTarget, crashed: bool, order: seq<string>)
    : seq<Event>
  {
    StartUpRun(c, if crashed then past + [Crash(target.nodeId)] else past, k, target, order)
  }

  lemma RestartRuns(c: Cluster, past: seq<Event>, k: string, target: NodeTarget, crashed: bool, order: seq<string>)
    ensures Run(c, Restart(c, past, k, target, crashed, order)) ==
            StartUp(c, Rebooted(c, Run(c, past), target, crashed), k, target, order)
    ensures AllFiled(Rebooted(c, Run(c, past), target, crashed))
  {
    var start := if crashed then past + [Crash(target.nodeId)] else past;
    if crashed {
      RunStep(c, past, Crash(target.nodeId));
    }
    StartUpRuns(c, start, k, target, order);
    RunsFile(c, start);
  }

  lemma RebootReads(c: Cluster, k: string, s: State, target: NodeTarget, crashed: bool)
    ensures var s' := Rebooted(c, s, target, crashed);
            && (forall n :: n != target.nodeId ==> ReadAt(s', n, k) == ReadAt(s, n, k))
            && ReadAt(s', target.nodeId, k) == if crashed then None else ReadAt(s, target.nodeId, k)
  {
  }

  lemma RebootRests(c: Cluster, k: string, bound: nat, s: State, target: NodeTarget, crashed: bool)
    requires Pair(c, k) && AtRest(c, k, bound, s)
    ensures AtRest(c, k, bound, Rebooted(c, s, target, crashed))
  {
    var s' := Rebooted(c, s, target, crashed);
    forall n ensures SoundCache(k, bound, CacheOf(s', n)) {
      assert SoundCache(k, bound, CacheOf(s, n));
    }
  }

  lemma AdoptedIsSound(k: string, bound: nat, items: Items, items': Items, now: Time, item: Item)
    requires SoundItem(k, bound, item) && Adopted(items, items', now, item)
    ensures SoundCache(k, bound, items')
  {
  }

  lemma OneCacheRests(c: Cluster, k: string, bound: nat, s: State, s': State, node: string)
    requires |Nodes(c, k, 2)| == 2 && AtRest(c, k, bound, s)
    requires OnlyCache(s, s', node) && SoundCache(k, bound, CacheOf(s', node))
    ensures AtRest(c, k, bound, s')
  {
    forall n ensures SoundCache(k, bound, CacheOf(s', n)) {
      assert SoundCache(k, bound, CacheOf(s, n));
    }
  }

  lemma SyncedRests(c: Cluster, k: string, bound: nat, s: State, target: NodeTarget, source: string)
    requires Pair(c, k) && Responsible(c, k, target.nodeId) && AtRest(c, k, bound, s)
    ensures AtRest(c, k, bound, Synced(c, s, k, target, source))
  {
    assert SoundCache(k, bound, CacheOf(s, source));
    match Live(CacheOf(s, source), k, s.now)
    case None => SyncedSilent(c, k, s, target, source);
    case Some(item) =>
      var s' := Synced(c, s, k, target, source);
      SyncedAdopts(c, k, s, target, source, item);
      AdoptedIsSound(k, bound, CacheOf(s, target.nodeId), CacheOf(s', target.nodeId), s.now, item);
      OneCacheRests(c, k, bound, s, s', target.nodeId);
  }

  lemma {:induction false} StartUpRests(c: Cluster, k: string, bound: nat, s: State, target: NodeTarget,
                                        order: seq<string>)
    requires Pair(c, k) && Responsible(c, k, target.nodeId) && AtRest(c, k, bound, s)
    ensures AtRest(c, k, bound, StartUp(c, s, k, target, order))
  {
    if order == [] {
    } else {
      StartUpRests(c, k, bound, s, target, order[..|order| - 1]);
      SyncedRests(c, k, bound, StartUp(c, s, k, target, order[..|order| - 1]), target, order[|order| - 1]);
    }
  }

  lemma {:induction false} StartUpDeletesNothing(c: Cluster, k: string, past: seq<Event>, target: NodeTarget,
                                                 order: seq<string>)
    requires Undisturbed(c, k, past)
    ensures Undisturbed(c, k, StartUpRun(c, past, k, target, order))
  {
    if order == [] {
    } else {
      StartUpDeletesNothing(c, k, past, target, order[..|order| - 1]);
    }
  }

  /** A restart of an owner, with any peers in any order, leaves a key at rest. */
  lemma RestartRests(c: Cluster, k: string, bound: nat, past: seq<Event>, target: NodeTarget, crashed: bool,
                     order: seq<string>)
    requires Pair(c, k) && Responsible(c, k, target.nodeId)
    requires AtRest(c, k, bound, Run(c, past)) && Undisturbed(c, k, past)
    ensures AtRest(c, k, bound, Run(c, Restart(c, past, k, target, crashed, order)))
    ensures Undisturbed(c, k, Restart(c, past, k, target, crashed, order))
  {
    var s := Run(c, past);
    RestartRuns(c, past, k, target, crashed, order);
    RebootRests(c, k, bound, s, target, crashed);
    StartUpRests(c, k, bound, Rebooted(c, s, target, crashed), target, order);
    StartUpDeletesNothing(c, k, if crashed then past + [Crash(target.nodeId)] else past, target, order);
  }

  // ---------------------------------------------------------------- when the map's value comes back

  /** The node that hot keys are copied to. */
  predicate IsThird(c: Cluster, k: string, node: string) {
    |Nodes(c, k, 3)| > 2 && node == Nodes(c, k, 3)[2].nodeId
  }

  /** What the third node would send, if it is one of the peers. */
  function ThirdReads(c: Cluster, k: string, s: State, peers: seq<string>): Option<string> {
    if |Nodes(c, k, 3)| > 2 && Nodes(c, k, 3)[2].nodeId in peers then ReadAt(s, Nodes(c, k, 3)[2].nodeId, k) else None
  }

  predicate Agrees(held: Option<string>, want: Option<string>) {
    held.Some? ==> held == want
  }

  lemma ListedTwice(c: Cluster, k: string, i: nat)
    requires i < 2 <= |Nodes(c, k, 2)| && i < |Nodes(c, k, 3)|
    ensures Nodes(c, k, 3)[i] == Nodes(c, k, 2)[i]
  {
  }

  lemma HolderIsNamed(c: Cluster, k: string, node: string)
    requires |Nodes(c, k, 2)| == 2 && Safety.Holder(c, node, k)
    ensures IsOwner(OwnersOf(c, k), node) || IsThird(c, k, node)
  {
    var j :| 0 <= j < |Nodes(c, k, 3)| && Nodes(c, k, 3)[j].nodeId == node;
    if j < 2 {
      ListedTwice(c, k, j);
    }
  }

  /** Only the first three nodes of its list hold a key. */
  lemma HeldByThree(c: Cluster, k: string, events: seq<Event>, node: string)
    requires |Nodes(c, k, 2)| == 2 && ReadAt(Run(c, events), node, k).Some?
    ensures IsOwner(OwnersOf(c, k), node) || IsThird(c, k, node)
  {
    Safety.StoredValuesAreClientsOwn(c, events, node, k);
    HolderIsNamed(c, k, node);
  }

  /** The agreement of all peers, when nobody but `other` and the third node can hold the key. */
  lemma PeersAgreeIff(c: Cluster, k: string, s: State, target: string, other: string, peers: seq<string>,
                      want: Option<string>)
    requires other in peers && other != target && !IsThird(c, k, target)
    requires forall n :: n != target && ReadAt(s, n, k).Some? ==> n == other || IsThird(c, k, n)
    ensures var (held, third) := (ReadAt(s, other, k), ThirdReads(c, k, s, peers));
            PeersAgree(s, k, target, peers, want) <==>
            Agrees(held, want) && Agrees(third, want)
            && (held.None? && third.None? ==> ReadAt(s, target, k) == want)
  {
    if |Nodes(c, k, 3)| > 2 {
      var x := Nodes(c, k, 3)[2].nodeId;
      assert x in peers && ReadAt(s, x, k).Some? ==> HeldElsewhere(s, k, target, peers);
    }
    assert ReadAt(s, other, k).Some? ==> HeldElsewhere(s, k, target, peers);
  }

  /** However the peers are ordered, the restarted node ends up reading `want`. */
  ghost predicate EveryRestartReads(c: Cluster, k: string, events: seq<Event>, target: NodeTarget, crashed: bool,
                                    peers: seq<string>, want: Option<string>)
  {
    forall order :: multiset(order) == multiset(peers) ==>
      ReadAt(Run(c, Restart(c, events, k, target, crashed, order)), target.nodeId, k) == want
  }

  lemma RestartsAreStartUps(c: Cluster, k: string, events: seq<Event>, target: NodeTarget, crashed: bool,
                            peers: seq<string>, want: Option<string>)
    ensures EveryRestartReads(c, k, events, target, crashed, peers, want) <==>
            EveryOrderReads(c, Rebooted(c, Run(c, events), target, crashed), k, target, peers, want)
  {
    forall order
      ensures Run(c, Restart(c, events, k, target, crashed, order)) ==
              StartUp(c, Rebooted(c, Run(c, events), target, crashed), k, target, order)
    {
      RestartRuns(c, events, k, target, crashed, order);
    }
  }

  lemma RestartAgreesIff(c: Cluster, k: string, events: seq<Event>, target: NodeTarget, other: NodeTarget,
                         crashed: bool, peers: seq<string>, want: Option<string>)
    requires Pair(c, k) && other.nodeId in peers
    requires (target, other) == (OwnersOf(c, k).p, OwnersOf(c, k).r)
             || (target, other) == (OwnersOf(c, k).r, OwnersOf(c, k).p)
    ensures var s := Run(c, events);
            var (held, third) := (ReadAt(s, other.nodeId, k), ThirdReads(c, k, s, peers));
            var own := if crashed then None else ReadAt(s, target.nodeId, k);
            EveryRestartReads(c, k, events, target, crashed, peers, want) <==>
            Agrees(held, want) && Agrees(third, want) && (held.None? && third.None? ==> own == want)
  {
    var s, s' := Run(c, events), Rebooted(c, Run(c, events), target, crashed);
    RestartRuns(c, events, k, target, crashed, peers);
    RebootReads(c, k, s, target, crashed);
    forall n | n != target.nodeId && ReadAt(s', n, k).Some? ensures n == other.nodeId || IsThird(c, k, n) {
      HeldByThree(c, k, events, n);
    }
    RestartsAreStartUps(c, k, events, target, crashed, peers, want);
    EveryOrderIff(c, s', k, target, peers, want);
    PeersAgreeIff(c, k, s', target.nodeId, other.nodeId, peers, want);
  }

  /** From every settled run, the primary that restarts with the replica among its peers reads the map's value,
      whatever the order of the peers, if and only if the third node is no peer, or holds nothing, or holds the map's
      value; a primary that kept its cache must also not hold a value that the map has no more. */
  lemma PrimaryRecoversIff(c: Cluster, k: string, events: seq<Event>, crashed: bool, peers: seq<string>)
    requires Pair(c, k) && Settled(c, k, events) && OwnersOf(c, k).r.nodeId in peers
    ensures var (s, p, want) := (Run(c, events), OwnersOf(c, k).p, At(Spec(events), k));
            EveryRestartReads(c, k, events, p, crashed, peers, want) <==>
            Agrees(ThirdReads(c, k, s, peers), want) && (want.None? && !crashed ==> Reached(c, k, events).None?)
  {
    SettledIsAtRest(c, k, events);
    RestartAgreesIff(c, k, events, OwnersOf(c, k).p, OwnersOf(c, k).r, crashed, peers, At(Spec(events), k));
  }

  /** The replica that restarts with the primary among its peers reads the map's value, whatever the order, if and
      only if neither the primary nor the third node sends another value, and somebody still holds the value. */
  lemma ReplicaRecoversIff(c: Cluster, k: string, events: seq<Event>, crashed: bool, peers: seq<string>)
    requires Pair(c, k) && Settled(c, k, events) && OwnersOf(c, k).p.nodeId in peers
    ensures var (s, r, want, reached) := (Run(c, events), OwnersOf(c, k).r, At(Spec(events), k), Reached(c, k, events));
            var third := ThirdReads(c, k, s, peers);
            EveryRestartReads(c, k, events, r, crashed, peers, want) <==>
            Agrees(reached, want) && Agrees(third, want) && (want.Some? && crashed ==> reached.Some? || third.Some?)
  {
    SettledIsAtRest(c, k, events);
    RestartAgreesIff(c, k, events, OwnersOf(c, k).r, OwnersOf(c, k).p, crashed, peers, At(Spec(events), k));
  }

  /** The condition of `PrimaryRecoversIff`. */
  ghost predicate PrimaryCanRecover(c: Cluster, k: string, events: seq<Event>, crashed: bool, peers: seq<string>)
    requires |Nodes(c, k, 2)| == 2
  {
    && OwnersOf(c, k).r.nodeId in peers
    && Agrees(ThirdReads(c, k, Run(c, events), peers), At(Spec(events), k))
    && (At(Spec(events), k).None? && !crashed ==> Reached(c, k, events).None?)
  }

  /** Then both owners hold the map's value, and the key is at rest. Operations that missed the primary are repaired. */
  lemma PrimaryRecovers(c: Cluster, k: string, events: seq<Event>, crashed: bool, order: seq<string>)
    requires Pair(c, k) && Settled(c, k, events) && PrimaryCanRecover(c, k, events, crashed, order)
    ensures var past := Restart(c, events, k, OwnersOf(c, k).p, crashed, order);
            && AtRest(c, k, SetsOf(k, events) + 1, Run(c, past)) && Undisturbed(c, k, past)
            && ReadAt(Run(c, past), OwnersOf(c, k).p.nodeId, k) == At(Spec(events), k)
            && ReadAt(Run(c, past), OwnersOf(c, k).r.nodeId, k) == At(Spec(events), k)
  {
    var s, p := Run(c, events), OwnersOf(c, k).p;
    SettledIsAtRest(c, k, events);
    RestartRests(c, k, SetsOf(k, events) + 1, events, p, crashed, order);
    RestartRuns(c, events, k, p, crashed, order);
    PrimaryRecoversIff(c, k, events, crashed, order);
    OthersKeep(c, k, Rebooted(c, s, p, crashed), p, order, OwnersOf(c, k).r.nodeId);
    RebootReads(c, k, s, p, crashed);
  }

  lemma OthersKeep(c: Cluster, k: string, s: State, target: NodeTarget, order: seq<string>, node: string)
    requires Responsible(c, k, target.nodeId) && AllFiled(s) && node != target.nodeId
    ensures ReadAt(StartUp(c, s, k, target, order), node, k) == ReadAt(s, node, k)
  {
    LastDumpWins(c, k, s, target, order);
  }

  // ---------------------------------------------------------------- life goes on

  /** An operation on the key misses the primary. */
  predicate Misses(c: Cluster, k: string, e: Event)
    requires |Nodes(c, k, 2)| == 2
  {
    (e.ClientSet? && e.key == k && e.primaryFailed) || (e.Lose? && IsFirstPost(OwnersOf(c, k), k, e.message))
  }

  lemma {:induction false} NothingMissed(c: Cluster, k: string, h: Past, events: seq<Event>)
    requires |Nodes(c, k, 2)| == 2 && h.primary == Left(h.op)
    requires forall i :: 0 <= i < |events| ==> !Misses(c, k, events[i])
    ensures PastAfter(c, k, h, events).primary == Left(PastAfter(c, k, h, events).op)
  {
    if events == [] {
    } else {
      NothingMissed(c, k, h, events[..|events| - 1]);
    }
  }

  /** After the primary has recovered, calm operations follow the simple map again as if nothing had happened, and
      what missed the primary before counts for it too. */
  lemma OperationResumes(c: Cluster, k: string, events: seq<Event>, crashed: bool, order: seq<string>,
                         later: seq<Event>)
    requires Pair(c, k) && Settled(c, k, events) && PrimaryCanRecover(c, k, events, crashed, order)
    requires var base := Restart(c, events, k, OwnersOf(c, k).p, crashed, order);
             CalmAfter(c, k, base, later) && Quiet(c, k, Run(c, base + later))
    ensures var s := Run(c, Restart(c, events, k, OwnersOf(c, k).p, crashed, order) + later);
            var want := At(Spec(events), k);
            && ReadAt(s, OwnersOf(c, k).r.nodeId, k) == At(SpecAfter(Spec(events), later), k)
            && ReadAt(s, OwnersOf(c, k).p.nodeId, k) == PastAfter(c, k, RestPast(want, want), later).primary
            && ((forall i :: 0 <= i < |later| ==> !Misses(c, k, later[i])) ==>
                  ReadAt(s, OwnersOf(c, k).p.nodeId, k) == At(SpecAfter(Spec(events), later), k))
  {
    var base, want := Restart(c, events, k, OwnersOf(c, k).p, crashed, order), At(Spec(events), k);
    PrimaryRecovers(c, k, events, crashed, order);
    RestResumes(c, k, SetsOf(k, events) + 1, base, Spec(events), later);
    RestValueStored(c, k, base, want);
    SpecIsLastOp(c, k, Spec(events), RestPast(want, want), later);
    if forall i :: 0 <= i < |later| ==> !Misses(c, k, later[i]) {
      NothingMissed(c, k, RestPast(want, want), later);
    }
  }

  /** In particular a routed read after the recovery returns the map's value, as long as one owner may serve it. */
  lemma ReadsAfterRecovery(c: Cluster, k: string, events: seq<Event>, crashed: bool, order: seq<string>,
                           members: Health.Members)
    requires Pair(c, k) && Settled(c, k, events) && PrimaryCanRecover(c, k, events, crashed, order)
    requires PrimaryAlive(c, k, members) || !ReplicaFailed(c, k, members)
    ensures var past := Restart(c, events, k, OwnersOf(c, k).p, crashed, order);
            RoutedValue(c, k, members, Run(c, past)) == At(Spec(events), k)
  {
    PrimaryRecovers(c, k, events, crashed, order);
    ReadsAtOwners(c, k, members, Run(c, Restart(c, events, k, OwnersOf(c, k).p, crashed, order)));
  }

  /** Versions do not drift apart either: after the restart of an owner, whatever it adopted, and a later drained set
      that reached the primary, both owners hold its value and the replica's version is the primary's or one more. */
  lemma DriftAfterRestart(c: Cluster, k: string, events: seq<Event>, target: NodeTarget, crashed: bool,
                          order: seq<string>, later: seq<Event>)
    requires Pair(c, k) && Settled(c, k, events) && Responsible(c, k, target.nodeId)
    requires var base := Restart(c, events, k, target, crashed, order);
             CalmAfter(c, k, base, later) && Quiet(c, k, Run(c, base + later))
    requires var op := PastAfter(c, k, NO_PAST, later).op; op.SetOp? && !op.missed
    requires SetsOf(k, events) + SetsOf(k, later) + 1 < VERSIONS - 1
    ensures var op := PastAfter(c, k, NO_PAST, later).op;
            var l := LocalOf(c, k, Run(c, Restart(c, events, k, target, crashed, order) + later));
            && Holds(l.primary, Stored(op.value)) && Holds(l.replica, Stored(op.value))
            && 0 <= l.replica.value.version - l.primary.value.version <= 1
            && 1 <= l.primary.value.version <= SetsOf(k, events) + SetsOf(k, later) + 1
  {
    var base, n := Restart(c, events, k, target, crashed, order), SetsOf(k, events) + 1;
    SettledIsAtRest(c, k, events);
    RestartRests(c, k, n, events, target, crashed, order);
    RestIsAPhase(c, k, n, base);
    var s, o := Run(c, base), OwnersOf(c, k);
    var h := RestPast(ReadAt(s, o.r.nodeId, k), ReadAt(s, o.p.nodeId, k));
    SameLastOp(c, k, NO_PAST, h, later);
    VersionDriftAfter(c, k, h, n, base, later);
  }

  /** The last operation of a run does not depend on the past before it. */
  lemma {:induction false} SameLastOp(c: Cluster, k: string, h: Past, h': Past, events: seq<Event>)
    requires |Nodes(c, k, 2)| == 2 && h.op.NoOp?
    ensures var op := PastAfter(c, k, h, events).op; !op.NoOp? ==> PastAfter(c, k, h', events).op == op
  {
    if events == [] {
    } else {
      SameLastOp(c, k, h, h', events[..|events| - 1]);
    }
  }

  // ---------------------------------------------------------------- a stale copy comes back

  ghost predicate ThreeNodes(c: Cluster, k: string) {
    |Nodes(c, k, 3)| == 3 && Nodes(c, k, 3)[2].addr != ""
  }

  /** A hot read at the primary sends a copy of what it holds to the third node. */
  lemma HotRead(c: Cluster, k: string, events: seq<Event>, v: string) returns (after: seq<Event>, m: Message)
    requires Pair(c, k) && ThreeNodes(c, k) && Settled(c, k, events) && Reached(c, k, events) == Some(v)
    ensures Settled(c, k, after) && Spec(after) == Spec(events) && Reached(c, k, after) == Some(v)
    ensures m.ReplicateMsg? && m.to == Nodes(c, k, 3)[2] && m.key == k && m.value == v
    ensures Run(c, after).net == Run(c, events).net + multiset{m}
  {
    var s, node := Run(c, events), OwnersOf(c, k).p.nodeId;
    SettledIsAtRest(c, k, events);
    RunsFile(c, events);
    StageThen(c, k, events, Read(node, k, true));
    after := events + [Read(node, k, true)];
    m := PromotionOf(c, k, s, v);
    assert forall x :: x in Run(c, after).net ==> x in s.net || x == m;
  }

  lemma PromotionOf(c: Cluster, k: string, s: State, v: string) returns (m: Message)
    requires Pair(c, k) && ThreeNodes(c, k) && AllFiled(s) && ReadAt(s, OwnersOf(c, k).p.nodeId, k) == Some(v)
    ensures m.ReplicateMsg? && m.to == Nodes(c, k, 3)[2] && m.key == k && m.value == v
    ensures var s' := Next(c, s, Read(OwnersOf(c, k).p.nodeId, k, true));
            s'.net == s.net + multiset{m} && s'.sessions == s.sessions
  {
    var item := Live(CacheOf(s, OwnersOf(c, k).p.nodeId), k, s.now).value;
    assert item.key == k by { assert Filed(CacheOf(s, OwnersOf(c, k).p.nodeId)); }
    m := ReplicateMsg(Nodes(c, k, 3)[2], k, v, PayloadSeconds(CopyTTL(TTLRemaining(item, s.now))), item.version);
    assert Promotion(Nodes(c, k, 3), OwnersOf(c, k).p.nodeId, item, s.now) == multiset{m};
  }

  lemma CopyArrives(c: Cluster, k: string, s: State, m: Message)
    requires m.ReplicateMsg? && m.key == k && m in s.net
    ensures ReadAt(Receive(c, s, m), m.to.nodeId, k) == Some(m.value)
    ensures Receive(c, s, m).net == s.net - multiset{m} && Receive(c, s, m).sessions == s.sessions
  {
  }

  lemma CopyDelivered(c: Cluster, k: string, events: seq<Event>, m: Message) returns (after: seq<Event>)
    requires Pair(c, k) && Settled(c, k, events) && m in Run(c, events).net && m.ReplicateMsg? && m.key == k
    ensures Settled(c, k, after) && Spec(after) == Spec(events) && Reached(c, k, after) == Reached(c, k, events)
    ensures ReadAt(Run(c, after), m.to.nodeId, k) == Some(m.value)
  {
    after := events + [Deliver(m)];
    StageThen(c, k, events, Deliver(m));
    RunStep(c, events, Deliver(m));
    CopyArrives(c, k, Run(c, events), m);
  }

  /** On any cluster with a third node: after a set, a hot read and another set, all delivered, the third node still
      has the first value, since copies are never renewed. */
  lemma StaleThirdCopy(c: Cluster, k: string, v1: string, v2: string) returns (events: seq<Event>)
    requires Pair(c, k) && ThreeNodes(c, k)
    ensures Settled(c, k, events) && At(Spec(events), k) == Some(Stored(v2))
    ensures Reached(c, k, events) == Some(Stored(v2))
    ensures ReadAt(Run(c, events), Nodes(c, k, 3)[2].nodeId, k) == Some(Stored(v1))
  {
    assert Settled(c, k, []);
    var first := SetDrains(c, k, [], v1);
    var read, m := HotRead(c, k, first, Stored(v1));
    var second := SetDrains(c, k, read, v2);
    events := CopyDelivered(c, k, second, m);
  }

  /** So the condition of `PrimaryRecoversIff` is not idle: the crashed primary that adopts the third node's dump after
      the replica's serves the first value again, which the map and the replica have replaced. */
  lemma StaleStartUp(c: Cluster, k: string, v1: string, v2: string, members: Health.Members)
    returns (events: seq<Event>, order: seq<string>)
    requires Pair(c, k) && ThreeNodes(c, k) && Stored(v1) != Stored(v2) && PrimaryAlive(c, k, members)
    ensures Settled(c, k, events) && OwnersOf(c, k).r.nodeId in order && At(Spec(events), k) == Some(Stored(v2))
    ensures RoutedValue(c, k, members, Run(c, events)) == Some(Stored(v2))
    ensures var past := Restart(c, events, k, OwnersOf(c, k).p, true, order);
            RoutedValue(c, k, members, Run(c, past)) == Some(Stored(v1))
  {
    var o, third := OwnersOf(c, k), Nodes(c, k, 3)[2].nodeId;
    events := StaleThirdCopy(c, k, v1, v2);
    order := [o.r.nodeId, third];
    var past := Restart(c, events, k, o.p, true, order);
    RoutedReadIsDetermined(c, k, events, members);
    RestartRuns(c, events, k, o.p, true, order);
    RebootReads(c, k, Run(c, events), o.p, true);
    LastDumpWins(c, k, Rebooted(c, Run(c, events), o.p, true), o.p, order);
    ReadsAtOwners(c, k, members, Run(c, past));
  }
}
