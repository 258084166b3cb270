/** The sliding-window hot-key detector.

The program keeps, per key, a list of timestamped buckets from which it prunes what has left the
window. The full access log that it does not keep is the specification.
*/
module Detector {
  import opened Base

  datatype Bucket = Bucket(count: nat, timestamp: Time)

  /** A configured window, and the number of accesses in it that makes a key hot. */
  datatype Config = Config(window: int, threshold: nat)

  ghost predicate Configured(c: Config) {
    c.window > 0 && c.threshold > 0
  }

  /** Defaults replace settings that are not positive. */
  function WithDefaults(c: Config): (r: Config)
    ensures Configured(r)
    ensures Configured(c) ==> r == c
    ensures c.window <= 0 ==> r.window == 5_000_000_000
    ensures c.threshold <= 0 ==> r.threshold == 20
  {
    Config(if c.window <= 0 then 5_000_000_000 else c.window, if c.threshold <= 0 then 20 else c.threshold)
  }

  /** Reading a map entry that is missing yields the zero time. */
  const ZERO_TIME: Time := 0

  datatype State = State(keyAccess: map<string, seq<Bucket>>, hotKeys: map<string, Time>)

  datatype HotKey = HotKey(key: string, requestCount: nat, detectedAt: Time)

  // ---------------------------------------------------------------- pure operations

  function Buckets(s: State, key: string): seq<Bucket> {
    if key in s.keyAccess then s.keyAccess[key] else []
  }

  function DetectedAt(s: State, key: string): Time {
    if key in s.hotKeys then s.hotKeys[key] else ZERO_TIME
  }

  /** The buckets with a timestamp after `cutoff`, in order. */
  function After(b: seq<Bucket>, cutoff: Time): seq<Bucket> {
    if b == [] then
      []
    else
      var rest := After(b[..|b| - 1], cutoff);
      var last := b[|b| - 1];
      if last.timestamp > cutoff then rest + [last] else rest
  }

  function Total(b: seq<Bucket>): nat {
    if b == [] then 0 else Total(b[..|b| - 1]) + b[|b| - 1].count
  }

  /** The windowed count that every operation computes. */
  function Count(b: seq<Bucket>, cutoff: Time): nat {
    Total(After(b, cutoff))
  }

  function Mark(hot: map<string, Time>, key: string, isHot: bool, now: Time): map<string, Time> {
    if isHot then (if key in hot then hot else hot[key := now]) else hot - {key}
  }

  function Record(c: Config, s: State, key: string, now: Time): State {
    var kept := After(Buckets(s, key), now - c.window) + [Bucket(1, now)];
    State(s.keyAccess[key := kept], Mark(s.hotKeys, key, Total(kept) >= c.threshold, now))
  }

  function RecordCount(c: Config, s: State, key: string, now: Time): nat {
    Count(Buckets(s, key), now - c.window) + 1
  }

  function QueryCount(c: Config, s: State, key: string, now: Time): nat {
    Count(Buckets(s, key), now - c.window)
  }

  predicate HotNow(c: Config, s: State, key: string, now: Time) {
    key in s.keyAccess && QueryCount(c, s, key, now) >= c.threshold
  }

  function Entry(hot: map<string, Time>, key: string): Option<Time> {
    if key in hot then Some(hot[key]) else None
  }

  /** The mark of a key after listing: a tracked key is marked exactly when it is hot, with its
      detection time, or with `now` when that is missing. */
  function MarkAfter(c: Config, s: State, key: string, now: Time): Option<Time> {
    if key !in s.keyAccess then Entry(s.hotKeys, key)
    else if HotNow(c, s, key, now) then Some(Listed(c, s, key, now).detectedAt)
    else None
  }

  /** The state after listing. */
  function List(c: Config, s: State, now: Time): State {
    State(map k | k in s.keyAccess :: After(s.keyAccess[k], now - c.window),
          map k | k in s.hotKeys.Keys + s.keyAccess.Keys && MarkAfter(c, s, k, now).Some?
                :: MarkAfter(c, s, k, now).value)
  }

  function Listed(c: Config, s: State, key: string, now: Time): HotKey {
    HotKey(key, QueryCount(c, s, key, now), if DetectedAt(s, key) == ZERO_TIME then now else DetectedAt(s, key))
  }

  // ---------------------------------------------------------------- the detector as the program keeps it

  class HotKeyDetector {
    const config: Config
    var keyAccess: map<string, seq<Bucket>>
    var hotKeys: map<string, Time>

    ghost function View(): State
      reads this
    {
      State(keyAccess, hotKeys)
    }

    constructor (c: Config)
      ensures config == WithDefaults(c)
      ensures View() == State(map[], map[])
    {
      config := WithDefaults(c);
      keyAccess := map[];
      hotKeys := map[];
    }

    method RecordAccess(key: string, now: Time) returns (isHot: bool, totalCount: nat)
      modifies this
      ensures View() == Record(config, old(View()), key, now)
      ensures totalCount == RecordCount(config, old(View()), key, now)
      ensures isHot == (totalCount >= config.threshold)
    {
      var cutoff := now - config.window;
      var buckets := if key in keyAccess then keyAccess[key] else [];
      var validBuckets: seq<Bucket> := [];
      totalCount := 0;
      for i := 0 to |buckets|
        invariant View() == old(View())
        invariant validBuckets == After(buckets[..i], cutoff)
        invariant totalCount == Total(validBuckets)
      {
        AfterStep(buckets, i, cutoff);
        if buckets[i].timestamp > cutoff {
          TotalSnoc(validBuckets, buckets[i]);
          validBuckets := validBuckets + [buckets[i]];
          totalCount := totalCount + buckets[i].count;
        }
      }
      assert buckets[..|buckets|] == buckets;
      TotalSnoc(validBuckets, Bucket(1, now));
      validBuckets := validBuckets + [Bucket(1, now)];
      totalCount := totalCount + 1;
      keyAccess := keyAccess[key := validBuckets];
      isHot := totalCount >= config.threshold;
      if isHot {
        if key !in hotKeys {
          hotKeys := hotKeys[key := now];
        }
      } else {
        hotKeys := hotKeys - {key};
      }
    }

    method IsHot(key: string, now: Time) returns (isHot: bool, totalCount: nat)
      ensures totalCount == QueryCount(config, View(), key, now)
      ensures isHot == (totalCount >= config.threshold)
    {
      var cutoff := now - config.window;
      var buckets := if key in keyAccess then keyAccess[key] else [];
      totalCount := 0;
      for i := 0 to |buckets|
        invariant totalCount == Count(buckets[..i], cutoff)
      {
        CountStep(buckets, i, cutoff);
        if buckets[i].timestamp > cutoff {
          totalCount := totalCount + buckets[i].count;
        }
      }
      assert buckets[..|buckets|] == buckets;
      isHot := totalCount >= config.threshold;
    }

    /** Keys are visited in no particular order. */
    method GetHotKeys(now: Time) returns (hotList: seq<HotKey>)
      modifies this
      ensures View() == List(config, old(View()), now)
      ensures Enumerates(hotList, HotSet(config, old(View()), now), Details(config, old(View()), now))
    {
      hotList := [];
      ghost var s := View();
      var todo := keyAccess.Keys;
      ListingStarts(config, s, now);
      while todo != {}
        invariant PrunedSoFar(config, s, now, todo, View())
        invariant Enumerates(hotList, HotSet(config, s, now) - todo, Details(config, s, now))
        decreases |todo|
      {
        var key :| key in todo;
        ghost var before := View();
        var found := Visit(key, now);
        PrunedStep(config, s, now, todo, before, key, View());
        ListedStep(config, s, now, todo, hotList, before, key);
        todo := todo - {key};
        if found.Some? {
          hotList := hotList + [found.value];
        }
      }
      ListingEnds(config, s, now, View(), hotList);
    }

    /** One turn of the listing loop. */
    method Visit(key: string, now: Time) returns (found: Option<HotKey>)
      requires key in keyAccess
      modifies this
      ensures Visited(config, old(View()), key, now, View())
      ensures found ==
              if HotNow(config, old(View()), key, now) then Some(Listed(config, old(View()), key, now)) else None
    {
      var validBuckets, totalCount := Prune(keyAccess[key], now - config.window);
      keyAccess := keyAccess[key := validBuckets];
      if totalCount >= config.threshold {
        var detTime := if key in hotKeys then hotKeys[key] else ZERO_TIME;
        if detTime == ZERO_TIME {
          detTime := now;
          hotKeys := hotKeys[key := now];
        }
        found := Some(HotKey(key, totalCount, detTime));
      } else {
        hotKeys := hotKeys - {key};
        found := None;
      }
    }

    method Prune(buckets: seq<Bucket>, cutoff: Time) returns (validBuckets: seq<Bucket>, totalCount: nat)
      ensures validBuckets == After(buckets, cutoff)
      ensures totalCount == Count(buckets, cutoff)
    {
      validBuckets := [];
      totalCount := 0;
      for i := 0 to |buckets|
        invariant validBuckets == After(buckets[..i], cutoff)
        invariant totalCount == Total(validBuckets)
      {
        AfterStep(buckets, i, cutoff);
        if buckets[i].timestamp > cutoff {
          TotalSnoc(validBuckets, buckets[i]);
          validBuckets := validBuckets + [buckets[i]];
          totalCount := totalCount + buckets[i].count;
        }
      }
      assert buckets[..|buckets|] == buckets;
    }
  }

  /** The listing loop has pruned and re-marked the keys outside `todo`, and no others. */
  ghost predicate PrunedSoFar(c: Config, s: State, now: Time, todo: set<string>, r: State) {
    && todo <= s.keyAccess.Keys == r.keyAccess.Keys
    && (forall k :: k in r.keyAccess ==>
          r.keyAccess[k] == if k in todo then s.keyAccess[k] else After(s.keyAccess[k], now - c.window))
    && forall k :: Entry(r.hotKeys, k) == if k in todo then Entry(s.hotKeys, k) else MarkAfter(c, s, k, now)
  }

  /** One key pruned and re-marked, nothing else changed. */
  ghost predicate Visited(c: Config, r: State, key: string, now: Time, r': State)
    requires key in r.keyAccess
  {
    && r'.keyAccess == r.keyAccess[key := After(r.keyAccess[key], now - c.window)]
    && Entry(r'.hotKeys, key) == MarkAfter(c, r, key, now)
    && forall k :: k != key ==> Entry(r'.hotKeys, k) == Entry(r.hotKeys, k)
  }

  /** `list` has one entry, with the given details, for each key in `keys`. */
  ghost predicate Enumerates(list: seq<HotKey>, keys: set<string>, details: string -> HotKey) {
    && (forall h :: h in list ==> h.key in keys && h == details(h.key))
    && (forall k :: k in keys ==> details(k) in list)
    && forall i, j :: 0 <= i < j < |list| ==> list[i].key != list[j].key
  }

  lemma EnumeratesStep(list: seq<HotKey>, keys: set<string>, details: string -> HotKey, key: string)
    requires Enumerates(list, keys, details) && key !in keys && details(key).key == key
    ensures Enumerates(list + [details(key)], keys + {key}, details)
  {
  }

  function HotSet(c: Config, s: State, now: Time): set<string> {
    set k | k in s.keyAccess && HotNow(c, s, k, now)
  }

  function Details(c: Config, s: State, now: Time): string -> HotKey {
    (k: string) => Listed(c, s, k, now)
  }

  lemma SameKey(c: Config, s: State, r: State, key: string, now: Time)
    requires key in s.keyAccess && key in r.keyAccess && s.keyAccess[key] == r.keyAccess[key]
    requires Entry(s.hotKeys, key) == Entry(r.hotKeys, key)
    ensures HotNow(c, s, key, now) == HotNow(c, r, key, now)
    ensures Listed(c, s, key, now) == Listed(c, r, key, now)
    ensures MarkAfter(c, s, key, now) == MarkAfter(c, r, key, now)
  {
  }

  lemma PrunedStep(c: Config, s: State, now: Time, todo: set<string>, r: State, key: string, r': State)
    requires PrunedSoFar(c, s, now, todo, r) && key in todo
    requires Visited(c, r, key, now, r')
    ensures PrunedSoFar(c, s, now, todo - {key}, r')
  {
    SameKey(c, s, r, key, now);
  }

  lemma ListedStep(c: Config, s: State, now: Time, todo: set<string>, list: seq<HotKey>, r: State, key: string)
    requires PrunedSoFar(c, s, now, todo, r) && Enumerates(list, HotSet(c, s, now) - todo, Details(c, s, now))
             && key in todo
    ensures Enumerates(if HotNow(c, r, key, now) then list + [Listed(c, r, key, now)] else list,
                       HotSet(c, s, now) - (todo - {key}), Details(c, s, now))
  {
    SameKey(c, s, r, key, now);
    var hot := HotSet(c, s, now);
    if HotNow(c, r, key, now) {
      assert hot - (todo - {key}) == (hot - todo) + {key};
      EnumeratesStep(list, hot - todo, Details(c, s, now), key);
    } else {
      assert hot - (todo - {key}) == hot - todo;
    }
  }

  lemma ListingStarts(c: Config, s: State, now: Time)
    ensures PrunedSoFar(c, s, now, s.keyAccess.Keys, s)
    ensures Enumerates([], HotSet(c, s, now) - s.keyAccess.Keys, Details(c, s, now))
  {
  }

  lemma ListingEnds(c: Config, s: State, now: Time, r: State, list: seq<HotKey>)
    requires PrunedSoFar(c, s, now, {}, r) && Enumerates(list, HotSet(c, s, now) - {}, Details(c, s, now))
    ensures r == List(c, s, now)
    ensures Enumerates(list, HotSet(c, s, now), Details(c, s, now))
  {
    assert HotSet(c, s, now) - {} == HotSet(c, s, now);
    ListIsPointwise(c, s, now, r);
  }

  lemma ListIsPointwise(c: Config, s: State, now: Time, r: State)
    requires r.keyAccess.Keys == s.keyAccess.Keys
    requires forall k :: k in r.keyAccess ==> r.keyAccess[k] == After(s.keyAccess[k], now - c.window)
    requires forall k :: Entry(r.hotKeys, k) == MarkAfter(c, s, k, now)
    ensures r == List(c, s, now)
  {
    var l := List(c, s, now);
    assert r.keyAccess == l.keyAccess;
    forall k ensures Entry(r.hotKeys, k) == Entry(l.hotKeys, k) {
      assert Entry(r.hotKeys, k) == MarkAfter(c, s, k, now);
    }
    forall k ensures k in r.hotKeys <==> k in l.hotKeys {
      assert Entry(r.hotKeys, k) == Entry(l.hotKeys, k);
    }
    forall k | k in r.hotKeys ensures r.hotKeys[k] == l.hotKeys[k] {
      assert Entry(r.hotKeys, k) == Entry(l.hotKeys, k);
    }
  }

  lemma TotalSnoc(b: seq<Bucket>, x: Bucket)
    ensures Total(b + [x]) == Total(b) + x.count
  {
  }

  lemma AfterStep(b: seq<Bucket>, i: nat, cutoff: Time)
    requires i < |b|
    ensures After(b[..i + 1], cutoff) == After(b[..i], cutoff) + if b[i].timestamp > cutoff then [b[i]] else []
  {
    assert b[..i + 1][..i] == b[..i];
  }

  lemma CountStep(b: seq<Bucket>, i: nat, cutoff: Time)
    requires i < |b|
    ensures Count(b[..i + 1], cutoff) == Count(b[..i], cutoff) + if b[i].timestamp > cutoff then b[i].count else 0
  {
    assert b[..i + 1][..i] == b[..i];
    TotalSnoc(After(b[..i], cutoff), b[i]);
  }
}
