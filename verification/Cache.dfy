/** The in-memory store of one node: items with an optional expiry, versions and counters.

Times are nanoseconds on a clock that callers pass in; an item without expiry has `None`.
*/
module Cache {
  import opened Base

  const SECOND: int := 1_000_000_000

  const VERSIONS: nat := 0x1_0000_0000_0000_0000

  /** Versions are unsigned 64-bit numbers. */
  type Version = v: int | 0 <= v < VERSIONS

  datatype Item = Item(
    key: string, value: string, createdAt: Time, expiresAt: Option<Time>, version: Version, isReplica: bool)

  type Items = map<string, Item>

  // ---------------------------------------------------------------- pure operations

  function IsExpired(item: Item, now: Time): bool {
    item.expiresAt.Some? && now > item.expiresAt.value
  }

  /** Whole seconds left, 0 when none is left, -1 without expiry. */
  function TTLRemaining(item: Item, now: Time): int {
    if item.expiresAt.None? then -1
    else if item.expiresAt.value - now <= 0 then 0
    else (item.expiresAt.value - now) / SECOND
  }

  /** Version 0 asks for the successor of the stored version; the addition wraps at 64 bits. */
  function NextVersion(items: Items, key: string, version: Version): Version {
    if version != 0 then version
    else if key in items then (items[key].version + 1) % VERSIONS
    else 1
  }

  function MakeItem(items: Items, now: Time, key: string, value: string, ttl: int, version: Version,
                    isReplica: bool): Item
  {
    Item(key, value, now, if ttl > 0 then Some(now + ttl) else None, NextVersion(items, key, version), isReplica)
  }

  function Put(items: Items, now: Time, key: string, value: string, ttl: int, version: Version, isReplica: bool): Items
  {
    items[key := MakeItem(items, now, key, value, ttl, version, isReplica)]
  }

  /** What a read sees: the stored item unless it has expired. */
  function Live(items: Items, key: string, now: Time): Option<Item> {
    if key in items && !IsExpired(items[key], now) then Some(items[key]) else None
  }

  function DropIfExpired(items: Items, key: string, now: Time): Items {
    if key in items && IsExpired(items[key], now) then items - {key} else items
  }

  function Purge(items: Items, now: Time): Items {
    map k | k in items && !IsExpired(items[k], now) :: items[k]
  }

  /** The keys that `Keys` lists: strictly before their expiry. */
  predicate Listed(item: Item, now: Time) {
    item.expiresAt.None? || now < item.expiresAt.value
  }

  /** Items are filed under their own key. */
  ghost predicate Filed(items: Items) {
    forall k :: k in items ==> items[k].key == k
  }

  lemma OneLess(items: Items, k: string)
    requires k in items
    ensures |items - {k}| == |items| - 1
  {
    assert items.Keys == (items - {k}).Keys + {k};
  }

  // ---------------------------------------------------------------- the cache as the program keeps it

  class CacheStore {
    var items: Items
    var hitCount: nat
    var missCount: nat
    var setCount: nat
    var deleteCount: nat
    var expiredCount: nat

    constructor ()
      ensures items == map[]
      ensures hitCount == missCount == setCount == deleteCount == expiredCount == 0
    {
      items := map[];
      hitCount, missCount, setCount, deleteCount, expiredCount := 0, 0, 0, 0, 0;
    }

    method SetWithMetadata(key: string, value: string, ttl: int, version: Version, isReplica: bool, now: Time)
      returns (item: Item)
      modifies this`items, this`setCount
      ensures items == Put(old(items), now, key, value, ttl, version, isReplica)
      ensures item == items[key]
      ensures setCount == old(setCount) + 1
    {
      var expiresAt := None;
      if ttl > 0 {
        expiresAt := Some(now + ttl);
      }
      var v := version;
      if v == 0 {
        v := 1;
        if key in items {
          v := (items[key].version + 1) % VERSIONS;
        }
      }
      item := Item(key, value, now, expiresAt, v, isReplica);
      items := items[key := item];
      setCount := setCount + 1;
    }

    /** The expiry is checked at `now` and, under the write lock, again at `recheck`. */
    method Get(key: string, now: Time, recheck: Time) returns (r: Option<Item>)
      requires now <= recheck
      modifies this`items, this`hitCount, this`missCount, this`expiredCount
      ensures r == Live(old(items), key, now)
      ensures items == DropIfExpired(old(items), key, now)
      ensures hitCount == old(hitCount) + (if r.Some? then 1 else 0)
      ensures missCount == old(missCount) + (if r.None? then 1 else 0)
      ensures expiredCount - old(expiredCount) == |old(items)| - |items|
    {
      if key !in items {
        missCount := missCount + 1;
        return None;
      }
      var item := items[key];
      if IsExpired(item, now) {
        if key in items && IsExpired(items[key], recheck) {
          items := items - {key};
          expiredCount := expiredCount + 1;
          assert old(items).Keys == items.Keys + {key};
        }
        missCount := missCount + 1;
        return None;
      }
      hitCount := hitCount + 1;
      r := Some(item);
    }

    method Delete(key: string) returns (existed: bool)
      modifies this`items, this`deleteCount
      ensures existed == (key in old(items))
      ensures items == old(items) - {key}
      ensures deleteCount == old(deleteCount) + (if existed then 1 else 0)
    {
      if key in items {
        items := items - {key};
        deleteCount := deleteCount + 1;
        return true;
      }
      existed := false;
    }

    method Keys(now: Time) returns (keys: seq<string>)
      ensures forall k :: k in keys <==> k in items && Listed(items[k], now)
      ensures forall i, j :: 0 <= i < j < |keys| ==> keys[i] != keys[j]
    {
      keys := [];
      var todo := items.Keys;
      while todo != {}
        invariant todo <= items.Keys
        invariant forall k :: k in keys <==> k in items && k !in todo && Listed(items[k], now)
        invariant forall i, j :: 0 <= i < j < |keys| ==> keys[i] != keys[j]
        decreases |todo|
      {
        var k :| k in todo;
        todo := todo - {k};
        if Listed(items[k], now) {
          keys := keys + [k];
        }
      }
    }

    method PurgeExpired(now: Time)
      modifies this`items, this`expiredCount
      ensures items == Purge(old(items), now)
      ensures expiredCount - old(expiredCount) == |old(items)| - |items|
    {
      var todo := items.Keys;
      while todo != {}
        invariant todo <= items.Keys <= old(items).Keys
        invariant forall k :: k in items ==> items[k] == old(items)[k]
        invariant forall k :: k in old(items) && k !in todo ==> (k in items <==> !IsExpired(old(items)[k], now))
        invariant forall k :: k in todo ==> k in items
        invariant expiredCount - old(expiredCount) == |old(items)| - |items|
        decreases |todo|
      {
        var k :| k in todo;
        todo := todo - {k};
        if IsExpired(items[k], now) {
          OneLess(items, k);
          items := items - {k};
          expiredCount := expiredCount + 1;
        }
      }
    }
  }

  // ---------------------------------------------------------------- what readers are told

  /** Remaining whole seconds as they are shown: -1 without expiry, 0 from the expiry on, and otherwise less than a
      second short of the time that is left. */
  predicate Shows(item: Item, now: Time, seconds: int) {
    match item.expiresAt
    case None => seconds == -1
    case Some(end) =>
      if end <= now then seconds == 0
      else seconds >= 0 && seconds * SECOND <= end - now < (seconds + 1) * SECOND
  }

  lemma RemainingIsShown(item: Item, now: Time)
    ensures Shows(item, now, TTLRemaining(item, now))
  {
  }

  /** A key is listed exactly when a read finds it and its expiry is not this very moment. */
  lemma ListedIff(items: Items, key: string, now: Time)
    requires key in items
    ensures Listed(items[key], now) <==> Live(items, key, now).Some? && items[key].expiresAt != Some(now)
  {
  }

  /** A read drops its key if it finds it expired, a purge drops every expired key; what stays is as it was. */
  lemma ExpiredIsDropped(items: Items, key: string, now: Time, k: string)
    ensures k in DropIfExpired(items, key, now) <==> k in items && (k == key ==> Live(items, k, now).Some?)
    ensures k in Purge(items, now) <==> Live(items, k, now).Some?
    ensures k in DropIfExpired(items, key, now) ==> DropIfExpired(items, key, now)[k] == items[k]
    ensures k in Purge(items, now) ==> Purge(items, now)[k] == items[k]
  {
  }

  // ---------------------------------------------------------------- copies and their expiry

  /** Rounds a remaining lifetime to the whole seconds that a copy is given. */
  function CopyTTL(ttlSeconds: int): int {
    if ttlSeconds > 0 then ttlSeconds * SECOND else 0
  }

  /** The payload of a replicated set carries whole seconds. */
  function PayloadSeconds(ttl: int): int {
    if ttl > 0 then ttl / SECOND else 0
  }

  /** The item a receiver stores when a live item is dumped and ingested, or synchronised. */
  function DumpedCopy(target: Items, item: Item, isReplica: bool, now: Time): Item {
    MakeItem(target, now, item.key, item.value, CopyTTL(TTLRemaining(item, now)), item.version, isReplica)
  }

  /** The item a receiver stores after hot-key promotion, which goes through a replicate payload. */
  function PromotedCopy(target: Items, item: Item, now: Time): Item {
    MakeItem(target, now, item.key, item.value,
             CopyTTL(PayloadSeconds(CopyTTL(TTLRemaining(item, now)))), item.version, true)
  }

  /** A copy made with no delay keeps the value and the version, expires less than a second early and
      never late; it never expires exactly when the source had no expiry or less than a second left. */
  lemma CopyExpiry(target: Items, item: Item, isReplica: bool, now: Time)
    requires !IsExpired(item, now)
    ensures PromotedCopy(target, item, now).expiresAt == DumpedCopy(target, item, isReplica, now).expiresAt
    ensures var copy := DumpedCopy(target, item, isReplica, now);
            && copy.key == item.key && copy.value == item.value && copy.isReplica == isReplica
            && (item.version != 0 ==> copy.version == item.version)
            && (copy.expiresAt.None? <==> item.expiresAt.None? || item.expiresAt.value - now < SECOND)
            && (copy.expiresAt.Some? ==>
                  item.expiresAt.value - SECOND < copy.expiresAt.value <= item.expiresAt.value)
  {
  }

  /** An item copied from node to node at the given times. */
  function CopyChain(item: Item, times: seq<Time>): Item {
    if times == [] then item else DumpedCopy(map[], CopyChain(item, times[..|times| - 1]), false, times[|times| - 1])
  }

  ghost predicate CopiedWhileLive(item: Item, times: seq<Time>) {
    forall i :: 0 <= i < |times| ==> !IsExpired(CopyChain(item, times[..i]), times[i])
  }

  lemma CopiedPrefix(item: Item, times: seq<Time>)
    requires CopiedWhileLive(item, times) && times != []
    ensures CopiedWhileLive(item, times[..|times| - 1])
    ensures !IsExpired(CopyChain(item, times[..|times| - 1]), times[|times| - 1])
  {
    var before := times[..|times| - 1];
    forall i | 0 <= i < |before| ensures !IsExpired(CopyChain(item, before[..i]), before[i]) {
      assert before[..i] == times[..i] && before[i] == times[i];
    }
  }

  /** However often an item is copied, it keeps its value, its expiry never moves later, and each hop
      shortens its life by less than a second. */
  lemma {:induction false} CopyChainExpiry(item: Item, times: seq<Time>)
    requires CopiedWhileLive(item, times)
    ensures CopyChain(item, times).value == item.value
    ensures var last := CopyChain(item, times).expiresAt;
            last.Some? && times != [] ==>
              && item.expiresAt.Some?
              && item.expiresAt.value - |times| * SECOND < last.value <= item.expiresAt.value
  {
    if times == [] {
    } else {
      var before := times[..|times| - 1];
      CopiedPrefix(item, times);
      CopyChainExpiry(item, before);
      CopyExpiry(map[], CopyChain(item, before), false, times[|times| - 1]);
    }
  }

  /** Hop `i` finds the item within its last second. */
  predicate InLastSecond(item: Item, times: seq<Time>, i: nat)
    requires i < |times|
  {
    TTLRemaining(CopyChain(item, times[..i]), times[i]) == 0
  }

  lemma LastHop(item: Item, now: Time)
    requires !IsExpired(item, now)
    ensures DumpedCopy(map[], item, false, now).expiresAt.None? <==>
            item.expiresAt.None? || TTLRemaining(item, now) == 0
  {
  }

  ghost predicate MetLastSecond(item: Item, times: seq<Time>) {
    exists i :: 0 <= i < |times| && InLastSecond(item, times, i)
  }

  lemma MetStep(item: Item, times: seq<Time>)
    requires times != []
    ensures var n := |times| - 1;
            MetLastSecond(item, times) <==> MetLastSecond(item, times[..n]) || InLastSecond(item, times, n)
  {
    var n := |times| - 1;
    var before := times[..n];
    forall i | 0 <= i < n ensures InLastSecond(item, before, i) == InLastSecond(item, times, i) {
      assert before[..i] == times[..i];
    }
    if MetLastSecond(item, before) {
      var i :| 0 <= i < n && InLastSecond(item, before, i);
      assert InLastSecond(item, times, i);
    }
  }

  /** A chain of copies loses the expiry exactly at a hop that finds less than a second left. */
  lemma {:induction false} CopyChainLosesExpiry(item: Item, times: seq<Time>)
    requires CopiedWhileLive(item, times) && item.expiresAt.Some?
    ensures CopyChain(item, times).expiresAt.None? <==> MetLastSecond(item, times)
  {
    if times == [] {
    } else {
      var n := |times| - 1;
      CopiedPrefix(item, times);
      CopyChainLosesExpiry(item, times[..n]);
      LastHop(CopyChain(item, times[..n]), times[n]);
      MetStep(item, times);
    }
  }

  /** The exception is real: an item that should be gone within the second outlives it for ever. */
  lemma CopyOutlivesSource(target: Items, item: Item, now: Time, later: Time)
    requires item.expiresAt.Some? && now <= item.expiresAt.value < now + SECOND && later > item.expiresAt.value
    ensures IsExpired(item, later) && !IsExpired(DumpedCopy(target, item, false, now), later)
  {
  }
}
