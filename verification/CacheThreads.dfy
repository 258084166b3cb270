/** `Get` takes the read lock, looks at the clock, and takes the write lock only to drop an expired
    item. Here its phases run as separate steps of many threads, mixed with every other operation. */
module CacheThreads {
  import opened Base
  import opened Cache
  import CacheRuns

  /** Where a thread inside `Get` stands. */
  datatype Phase =
    | Looked(key: string, found: Option<Item>)  // the read lock has been released
    | Expiring(key: string)                     // saw an expired item, waits for the write lock
    | Missing(key: string)                      // has the miss still to count

  /** What a finished `Get` returned, and when it last looked at the clock. */
  datatype Answer = Answer(key: string, item: Option<Item>, at: Time)

  /** `inserted` counts sets of absent keys; `answers` holds the finished calls of `Get`. */
  datatype State = State(
    items: Items, threads: map<nat, Phase>, clock: Time,
    hits: nat, misses: nat, deletes: nat, expired: nat, inserted: nat, answers: seq<Answer>)

  const INITIAL: State := State(map[], map[], 0, 0, 0, 0, 0, 0, [])

  datatype Event =
    | Lookup(thread: nat, key: string)
    | Check(thread: nat, at: Time)
    | Expire(thread: nat, at: Time)
    | Finish(thread: nat)
    | SetKey(at: Time, key: string, value: string, ttl: int, version: Version, isReplica: bool)
    | DeleteKey(key: string)
    | PurgeAll(at: Time)

  function TimeOf(s: State, e: Event): Time {
    match e
    case Check(_, at) => at
    case Expire(_, at) => at
    case SetKey(at, _, _, _, _, _) => at
    case PurgeAll(at) => at
    case _ => s.clock
  }

  predicate Enabled(s: State, e: Event) {
    && s.clock <= TimeOf(s, e)
    && match e
       case Lookup(t, _) => t !in s.threads
       case Check(t, _) => t in s.threads && s.threads[t].Looked?
       case Expire(t, _) => t in s.threads && s.threads[t].Expiring?
       case Finish(t) => t in s.threads && s.threads[t].Missing?
       case _ => true
  }

  function CheckStep(s: State, t: nat, key: string, found: Option<Item>, at: Time): State {
    if found.None? then
      s.(misses := s.misses + 1, answers := s.answers + [Answer(key, None, at)], threads := s.threads - {t})
    else if IsExpired(found.value, at) then
      s.(threads := s.threads[t := Expiring(key)])
    else
      s.(hits := s.hits + 1, answers := s.answers + [Answer(key, found, at)], threads := s.threads - {t})
  }

  function ExpireStep(s: State, t: nat, key: string, at: Time): State {
    var s' := s.(threads := s.threads[t := Missing(key)]);
    if key in s.items && IsExpired(s.items[key], at) then
      s'.(items := s.items - {key}, expired := s.expired + 1)
    else
      s'
  }

  function ExpiredKeys(items: Items, at: Time): set<string> {
    set k | k in items && IsExpired(items[k], at)
  }

  function Act(s: State, e: Event): State
    requires Enabled(s, e)
  {
    match e
    case Lookup(t, key) =>
      s.(threads := s.threads[t := Looked(key, if key in s.items then Some(s.items[key]) else None)])
    case Check(t, at) => CheckStep(s, t, s.threads[t].key, s.threads[t].found, at)
    case Expire(t, at) => ExpireStep(s, t, s.threads[t].key, at)
    case Finish(t) =>
      s.(misses := s.misses + 1, answers := s.answers + [Answer(s.threads[t].key, None, s.clock)],
         threads := s.threads - {t})
    case SetKey(at, key, value, ttl, version, isReplica) =>
      s.(items := Put(s.items, at, key, value, ttl, version, isReplica),
         inserted := s.inserted + if key in s.items then 0 else 1)
    case DeleteKey(key) =>
      s.(items := s.items - {key}, deletes := s.deletes + if key in s.items then 1 else 0)
    case PurgeAll(at) =>
      s.(items := Purge(s.items, at), expired := s.expired + |ExpiredKeys(s.items, at)|)
  }

  /** One step; a step that is not possible in this state changes nothing. */
  function Next(s: State, e: Event): State {
    if Enabled(s, e) then Act(s, e).(clock := TimeOf(s, e)) else s
  }

  function Run(s: State, events: seq<Event>): State {
    if events == [] then s else Next(Run(s, events[..|events| - 1]), events[|events| - 1])
  }

  // ---------------------------------------------------------------- an unexpired item survives

  /** The only steps that take a live item away. */
  predicate Touches(e: Event, key: string) {
    (e.SetKey? && e.key == key) || (e.DeleteKey? && e.key == key)
  }

  lemma StepKeepsLiveItem(s: State, e: Event, key: string)
    requires key in s.items && !Touches(e, key) && !IsExpired(s.items[key], Next(s, e).clock)
    ensures key in Next(s, e).items && Next(s, e).items[key] == s.items[key]
  {
  }

  /** Over any interleaving, an item that has not expired by the end is still there, unless someone
      overwrote or deleted that key. */
  lemma {:induction false} LiveItemSurvives(s: State, events: seq<Event>, key: string)
    requires key in s.items && !IsExpired(s.items[key], Run(s, events).clock)
    requires forall i :: 0 <= i < |events| ==> !Touches(events[i], key)
    ensures key in Run(s, events).items && Run(s, events).items[key] == s.items[key]
  {
    if events == [] {
    } else {
      var before, e := events[..|events| - 1], events[|events| - 1];
      assert Run(s, before).clock <= Run(s, events).clock;
      LiveItemSurvives(s, before, key);
      StepKeepsLiveItem(Run(s, before), e, key);
    }
  }

  // ---------------------------------------------------------------- conservation

  ghost predicate Conserved(s: State) {
    && s.inserted == |s.items| + s.deletes + s.expired
    && s.hits + s.misses == |s.answers|
  }

  lemma RemoveSize(items: Items, key: string)
    ensures |items| == |items - {key}| + if key in items then 1 else 0
  {
  }

  lemma ExpireConserves(s: State, t: nat, key: string, at: Time)
    requires Conserved(s)
    ensures Conserved(ExpireStep(s, t, key, at))
  {
  }

  lemma PurgeSize(items: Items, at: Time)
    ensures |items| == |Purge(items, at)| + |ExpiredKeys(items, at)|
  {
    assert items.Keys == Purge(items, at).Keys + ExpiredKeys(items, at);
  }

  lemma SetConserves(s: State, e: Event)
    requires Conserved(s) && Enabled(s, e) && e.SetKey?
    ensures Conserved(Next(s, e))
  {
  }

  lemma StepConserves(s: State, e: Event)
    requires Conserved(s)
    ensures Conserved(Next(s, e))
  {
    if Enabled(s, e) {
      match e
      case Expire(t, at) => ExpireConserves(s, t, s.threads[t].key, at);
      case SetKey(_, _, _, _, _, _) => SetConserves(s, e);
      case DeleteKey(key) => RemoveSize(s.items, key);
      case PurgeAll(at) => PurgeSize(s.items, at);
      case _ =>
    }
  }

  /** In every interleaving, each inserted key is stored, deleted or expired exactly once, and each
      finished `Get` was counted once, as a hit or as a miss. */
  lemma {:induction false} EveryRunConserves(events: seq<Event>)
    ensures Conserved(Run(INITIAL, events))
  {
    if events == [] {
    } else {
      EveryRunConserves(events[..|events| - 1]);
      StepConserves(Run(INITIAL, events[..|events| - 1]), events[|events| - 1]);
    }
  }

  /** With no other thread in between, the phases add up to the call `Get` of the cache. */
  lemma UninterruptedGet(s: State, t: nat, key: string, now: Time, recheck: Time)
    requires t !in s.threads && s.clock <= now <= recheck
    ensures var s' := Next(Next(Next(Next(s, Lookup(t, key)), Check(t, now)), Expire(t, recheck)), Finish(t));
            && s'.items == DropIfExpired(s.items, key, now)
            && s'.hits == s.hits + (if Live(s.items, key, now).Some? then 1 else 0)
            && s'.misses == s.misses + (if Live(s.items, key, now).None? then 1 else 0)
            && s'.threads == s.threads
            && |s'.answers| == |s.answers| + 1 && s'.answers[..|s.answers|] == s.answers
            && s'.answers[|s.answers|].key == key && s'.answers[|s.answers|].item == Live(s.items, key, now)
  {
    var s1 := Next(s, Lookup(t, key));
    var s2 := Next(s1, Check(t, now));
    var s3 := Next(s2, Expire(t, recheck));
    assert s1.threads - {t} == s.threads;
    if Live(s.items, key, now).None? && key in s.items {
      assert s2.threads[t] == Expiring(key) && s3.threads[t] == Missing(key);
      assert s3.threads - {t} == s.threads;
    } else {
      assert t !in s2.threads;
      assert s3 == s2;
    }
  }

  /** The operations that hold the write lock throughout are single steps: they do to the items what they do in a run
      without threads. */
  lemma LockedStepsAreAtomic(s: State, e: Event)
    requires Enabled(s, e)
    ensures e.SetKey? ==>
              Next(s, e).items ==
              CacheRuns.Step(s.items, CacheRuns.SetEvent(e.at, e.key, e.value, e.ttl, e.version, e.isReplica))
    ensures e.DeleteKey? ==> Next(s, e).items == CacheRuns.Step(s.items, CacheRuns.DeleteEvent(s.clock, e.key))
    ensures e.PurgeAll? ==> Next(s, e).items == CacheRuns.Step(s.items, CacheRuns.PurgeEvent(e.at))
    ensures e.Lookup? || e.Check? || e.Finish? ==> Next(s, e).items == s.items
  {
  }

  // ---------------------------------------------------------------- what a hit returns

  /** Some set of the run stored this value under this key. */
  ghost predicate WasSet(events: seq<Event>, key: string, value: string) {
    exists i :: 0 <= i < |events| && events[i].SetKey? && events[i].key == key && events[i].value == value
  }

  ghost predicate Genuine(events: seq<Event>, key: string, item: Item) {
    item.key == key && WasSet(events, key, item.value)
  }

  /** What the cache stores, what a thread holds and what a call has returned. */
  ghost predicate AllGenuine(events: seq<Event>, s: State) {
    && (forall k :: k in s.items ==> Genuine(events, k, s.items[k]))
    && (forall t :: t in s.threads && s.threads[t].Looked? && s.threads[t].found.Some? ==>
          Genuine(events, s.threads[t].key, s.threads[t].found.value))
    && (forall i :: 0 <= i < |s.answers| && s.answers[i].item.Some? ==>
          Genuine(events, s.answers[i].key, s.answers[i].item.value)
            && !IsExpired(s.answers[i].item.value, s.answers[i].at))
  }

  lemma WasSetBefore(events: seq<Event>, e: Event, key: string, value: string)
    requires WasSet(events, key, value)
    ensures WasSet(events + [e], key, value)
  {
    var i :| 0 <= i < |events| && events[i].SetKey? && events[i].key == key && events[i].value == value;
    assert (events + [e])[i] == events[i];
  }

  lemma GenuineLater(events: seq<Event>, e: Event, s: State)
    requires AllGenuine(events, s)
    ensures AllGenuine(events + [e], s)
  {
    forall key, value | WasSet(events, key, value) ensures WasSet(events + [e], key, value) {
      WasSetBefore(events, e, key, value);
    }
  }

  lemma GenuineStep(events: seq<Event>, e: Event, s: State)
    requires AllGenuine(events, s) && (e.SetKey? ==> WasSet(events, e.key, e.value))
    ensures AllGenuine(events, Next(s, e))
  {
  }

  /** In every interleaving, a hit returns an item of the key asked for, with a value that was set for
      that key, and not expired when the call looked at the clock. */
  lemma {:induction false} HitsReturnTheKeyAsked(events: seq<Event>)
    ensures AllGenuine(events, Run(INITIAL, events))
  {
    if events == [] {
    } else {
      var before, e := events[..|events| - 1], events[|events| - 1];
      HitsReturnTheKeyAsked(before);
      assert events == before + [e];
      GenuineLater(before, e, Run(INITIAL, before));
      GenuineStep(events, e, Run(INITIAL, before));
    }
  }
}
