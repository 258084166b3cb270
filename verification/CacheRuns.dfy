/** Expiry housekeeping against a timed map that never deletes an expired entry. */
module CacheRuns {
  import opened Base
  import opened Cache

  datatype Event =
    | SetEvent(at: Time, key: string, value: string, ttl: int, version: Version, isReplica: bool)
    | GetEvent(at: Time, key: string)
    | DeleteEvent(at: Time, key: string)
    | PurgeEvent(at: Time)

  /** The clock never goes back, and does not start before `from`. */
  ghost predicate Monotone(from: Time, events: seq<Event>) {
    && (events != [] ==> from <= events[0].at)
    && forall i, j :: 0 <= i < j < |events| ==> events[i].at <= events[j].at
  }

  // ---------------------------------------------------------------- the cache

  function Step(items: Items, e: Event): Items {
    match e
    case SetEvent(at, key, value, ttl, version, isReplica) => Put(items, at, key, value, ttl, version, isReplica)
    case GetEvent(at, key) => DropIfExpired(items, key, at)
    case DeleteEvent(at, key) => items - {key}
    case PurgeEvent(at) => Purge(items, at)
  }

  /** What a caller learns about a stored item, the version excepted. */
  datatype Seen = Seen(key: string, value: string, createdAt: Time, expiresAt: Option<Time>, isReplica: bool)

  function Erase(item: Item): Seen {
    Seen(item.key, item.value, item.createdAt, item.expiresAt, item.isReplica)
  }

  function Answer(items: Items, key: string, at: Time): Option<Seen> {
    match Live(items, key, at)
    case Some(item) => Some(Erase(item))
    case None => None
  }

  /** The answers to all reads of a run, in order. */
  function Answers(items: Items, events: seq<Event>): seq<Option<Seen>>
    decreases |events|
  {
    if events == [] then
      []
    else
      var e := events[0];
      (if e.GetEvent? then [Answer(items, e.key, e.at)] else []) + Answers(Step(items, e), events[1..])
  }

  // ---------------------------------------------------------------- the timed map

  type TimedMap = map<string, Seen>

  function TimedStep(m: TimedMap, e: Event): TimedMap {
    match e
    case SetEvent(at, key, value, ttl, version, isReplica) =>
      m[key := Seen(key, value, at, if ttl > 0 then Some(at + ttl) else None, isReplica)]
    case DeleteEvent(at, key) => m - {key}
    case GetEvent(_, _) => m
    case PurgeEvent(_) => m
  }

  function TimedAnswer(m: TimedMap, key: string, at: Time): Option<Seen> {
    if key in m && (m[key].expiresAt.Some? ==> at <= m[key].expiresAt.value) then Some(m[key]) else None
  }

  function TimedAnswers(m: TimedMap, events: seq<Event>): seq<Option<Seen>>
    decreases |events|
  {
    if events == [] then
      []
    else
      var e := events[0];
      (if e.GetEvent? then [TimedAnswer(m, e.key, e.at)] else []) + TimedAnswers(TimedStep(m, e), events[1..])
  }

  // ---------------------------------------------------------------- housekeeping is invisible

  function WithoutPurges(events: seq<Event>): seq<Event> {
    if events == [] then []
    else (if events[0].PurgeEvent? then [] else [events[0]]) + WithoutPurges(events[1..])
  }

  predicate Gone(seen: Seen, clock: Time) {
    seen.expiresAt.Some? && clock > seen.expiresAt.value
  }

  /** The cache holds what the map holds, except entries that have expired by `clock`. */
  ghost predicate Agree(items: Items, m: TimedMap, clock: Time) {
    && (forall k :: k in items ==> k in m && m[k] == Erase(items[k]))
    && (forall k :: k in m && k !in items ==> Gone(m[k], clock))
  }

  lemma AgreeStep(items: Items, m: TimedMap, clock: Time, e: Event)
    requires Agree(items, m, clock) && clock <= e.at
    ensures Agree(Step(items, e), TimedStep(m, e), e.at)
    ensures e.GetEvent? ==> Answer(items, e.key, e.at) == TimedAnswer(m, e.key, e.at)
  {
  }

  lemma {:induction false} AnswersMatchTimedMap(items: Items, m: TimedMap, clock: Time, events: seq<Event>)
    requires Agree(items, m, clock) && Monotone(clock, events)
    ensures Answers(items, events) == TimedAnswers(m, WithoutPurges(events))
    decreases |events|
  {
    if events == [] {
    } else {
      var e, rest := events[0], events[1..];
      AgreeStep(items, m, clock, e);
      assert Monotone(e.at, rest);
      AnswersMatchTimedMap(Step(items, e), TimedStep(m, e), e.at, rest);
      var tail := WithoutPurges(rest);
      if !e.PurgeEvent? {
        assert WithoutPurges(events)[0] == e && WithoutPurges(events)[1..] == tail;
      } else {
        assert WithoutPurges(events) == tail;
      }
    }
  }

  /** Every run of a fresh cache answers like the timed map, and adding or dropping purges anywhere
      changes no answer. */
  lemma PurgesAreInvisible(from: Time, events: seq<Event>, events': seq<Event>)
    requires Monotone(from, events) && Monotone(from, events')
    requires WithoutPurges(events) == WithoutPurges(events')
    ensures Answers(map[], events) == TimedAnswers(map[], WithoutPurges(events))
    ensures Answers(map[], events) == Answers(map[], events')
  {
    AnswersMatchTimedMap(map[], map[], from, events);
    AnswersMatchTimedMap(map[], map[], from, events');
  }

  // ---------------------------------------------------------------- versions are not

  /** A purge changes the version that a later set assigns exactly when the set brings none, and the purge
      took an item of its key whose version was not 0. */
  lemma PurgeChangesVersionIff(items: Items, at: Time, later: Time, key: string, value: string, ttl: int,
                               version: Version, isReplica: bool)
    ensures Put(Purge(items, at), later, key, value, ttl, version, isReplica)[key].version
            != Put(items, later, key, value, ttl, version, isReplica)[key].version
            <==> version == 0 && key in items && IsExpired(items[key], at) && items[key].version != 0
  {
  }

  function Cached(events: seq<Event>): Items {
    if events == [] then map[] else Step(Cached(events[..|events| - 1]), events[|events| - 1])
  }

  /** The same run without its purges. */
  function Unpurged(events: seq<Event>): Items {
    if events == [] then map[]
    else
      var before, e := Unpurged(events[..|events| - 1]), events[|events| - 1];
      if e.PurgeEvent? then before else Step(before, e)
  }

  lemma {:induction false} WithoutSnoc(events: seq<Event>, e: Event)
    ensures WithoutPurges(events + [e]) == WithoutPurges(events) + if e.PurgeEvent? then [] else [e]
  {
    if events == [] {
      assert [] + [e] == [e];
    } else {
      WithoutSnoc(events[1..], e);
      assert (events + [e])[1..] == events[1..] + [e];
    }
  }

  lemma {:induction false} UnpurgedIsWithoutPurges(events: seq<Event>)
    ensures Unpurged(events) == Cached(WithoutPurges(events))
  {
    if events == [] {
    } else {
      var before, e := events[..|events| - 1], events[|events| - 1];
      assert events == before + [e];
      WithoutSnoc(before, e);
      UnpurgedIsWithoutPurges(before);
      var kept := WithoutPurges(before);
      if e.PurgeEvent? {
        assert kept + [] == kept;
      } else {
        assert (kept + [e])[..|kept|] == kept;
      }
    }
  }

  function Clock(from: Time, events: seq<Event>): Time {
    if events == [] then from else events[|events| - 1].at
  }

  /** The two caches hold the same items, versions included, except that the second may keep expired ones. */
  ghost predicate SameItems(a: Items, b: Items, clock: Time) {
    && (forall k :: k in a ==> k in b && b[k] == a[k])
    && (forall k :: k in b && k !in a ==> IsExpired(b[k], clock))
  }

  ghost predicate SameAt(from: Time, events: seq<Event>, n: nat)
    requires n <= |events|
  {
    SameItems(Cached(events[..n]), Unpurged(events[..n]), Clock(from, events[..n]))
  }

  /** Event `i` is a set without version whose key a purge has taken. */
  ghost predicate Restarts(events: seq<Event>, i: nat)
    requires i < |events|
  {
    var e, a, b := events[i], Cached(events[..i]), Unpurged(events[..i]);
    e.SetEvent? && e.version == 0 && e.key !in a && e.key in b && b[e.key].version != 0
  }

  lemma SameStep(a: Items, b: Items, clock: Time, e: Event)
    requires SameItems(a, b, clock) && clock <= e.at
    ensures SameItems(Step(a, e), if e.PurgeEvent? then b else Step(b, e), e.at) <==>
            !(e.SetEvent? && e.version == 0 && e.key !in a && e.key in b && b[e.key].version != 0)
  {
    if e.SetEvent? {
      assert Step(a, e)[e.key] == Step(b, e)[e.key] <==>
             NextVersion(a, e.key, e.version) == NextVersion(b, e.key, e.version);
    }
  }

  lemma SameNext(from: Time, events: seq<Event>, i: nat)
    requires Monotone(from, events) && i < |events| && SameAt(from, events, i)
    ensures SameAt(from, events, i + 1) <==> !Restarts(events, i)
  {
    assert events[..i + 1][..i] == events[..i];
    SameStep(Cached(events[..i]), Unpurged(events[..i]), Clock(from, events[..i]), events[i]);
  }

  lemma {:induction false} SameUntil(from: Time, events: seq<Event>, n: nat)
    requires Monotone(from, events) && n <= |events|
    requires forall i :: 0 <= i < n ==> !Restarts(events, i)
    ensures SameAt(from, events, n)
    decreases n
  {
    if n == 0 {
    } else {
      SameUntil(from, events, n - 1);
      SameNext(from, events, n - 1);
    }
  }

  /** Over every run: purges leave all items alone, versions included, throughout the run exactly when no
      set without version follows a purge that took an item of its key. */
  lemma PurgesKeepVersionsIff(from: Time, events: seq<Event>)
    requires Monotone(from, events)
    ensures (forall n :: 0 <= n <= |events| ==> SameAt(from, events, n)) <==>
            (forall i :: 0 <= i < |events| ==> !Restarts(events, i))
  {
    if forall i :: 0 <= i < |events| ==> !Restarts(events, i) {
      forall n | 0 <= n <= |events| ensures SameAt(from, events, n) {
        SameUntil(from, events, n);
      }
    } else {
      var i :| 0 <= i < |events| && Restarts(events, i);
      if SameAt(from, events, i) {
        SameNext(from, events, i);
      }
    }
  }

  /** Then every read returns the very same item. */
  lemma PurgesKeepAnswers(from: Time, events: seq<Event>, key: string, at: Time)
    requires Monotone(from, events) && Clock(from, events) <= at
    requires forall i :: 0 <= i < |events| ==> !Restarts(events, i)
    ensures Live(Cached(events), key, at) == Live(Cached(WithoutPurges(events)), key, at)
  {
    SameUntil(from, events, |events|);
    assert events[..|events|] == events;
    UnpurgedIsWithoutPurges(events);
  }

  /** The exception is real: a purge between two writes restarts the count. */
  lemma PurgeRestartsVersions(key: string, value: string, at: Time, later: Time)
    requires later > at + 1
    ensures var once := Step(map[], SetEvent(at, key, value, 1, 0, false));
            var again := SetEvent(later, key, value, 0, 0, false);
            && Step(once, again)[key].version == 2
            && Step(Step(once, PurgeEvent(later)), again)[key].version == 1
  {
  }
}
