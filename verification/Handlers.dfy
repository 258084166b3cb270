/** What one request leaves in a node's cache and what the node sends on, in terms of the request and the
    stored item alone: values, lifetimes, versions and addressees.

The handlers of `Server` and the gateway's requests are proved equal to the protocol's steps; here those
steps are measured against what a client was promised.
*/
module Handlers {
  import opened Base
  import opened Ring
  import opened Cache
  import opened Protocol

  const NANOSECONDS: int := 1_000_000_000

  /** A lifetime of whole seconds that began at `since` has not ended; without a positive TTL it never does. */
  predicate StillLives(since: Time, ttlSeconds: int, at: Time) {
    ttlSeconds <= 0 || at <= since + ttlSeconds * NANOSECONDS
  }

  /** A value of white space only is kept as the empty string, any other value as it is. */
  predicate KeptAs(value: string, kept: string) {
    if forall i :: 0 <= i < |value| ==> IsSpace(value[i]) then kept == "" else kept == value
  }

  /** The stored version is the one given, or without one the successor of the version before. */
  predicate VersionAfter(before: Items, key: string, given: Version, stored: Version) {
    if given != 0 then stored == given
    else if key !in before then stored == 1
    else if before[key].version == VERSIONS - 1 then stored == 0
    else stored == before[key].version + 1
  }

  /** All keys but one are as they were. */
  ghost predicate OthersKept(before: Items, after: Items, key: string) {
    forall k :: k != key ==> (k in after <==> k in before) && (k in before ==> after[k] == before[k])
  }

  /** The node to which the first two nodes of a list pass a write on. */
  predicate PassesOnTo(targets: seq<NodeTarget>, node: string, to: NodeTarget) {
    |targets| > 1 && to == targets[1] && to.nodeId != node && to.addr != ""
  }

  // ---------------------------------------------------------------- sets

  /** A set of a blank key is refused. Any other is stored under its key with the version given, the time of its
      arrival and the given flag; nothing else changes. */
  lemma SetIsStored(targets: seq<NodeTarget>, node: string, items: Items, now: Time, key: string, value: string,
                    ttlSeconds: int, version: Version, isReplica: bool)
    ensures var o := HandleSet(targets, node, items, now, key, value, ttlSeconds, version, isReplica);
            if Blank(key) then o == Outcome(items, multiset{})
            else
              && key in o.items && o.items[key].key == key && KeptAs(value, o.items[key].value)
              && o.items[key].createdAt == now && o.items[key].isReplica == isReplica
              && VersionAfter(items, key, version, o.items[key].version) && OthersKept(items, o.items, key)
  {
  }

  /** A stored set is answered until its TTL has passed, and for ever when it has none. */
  lemma SetLives(targets: seq<NodeTarget>, node: string, items: Items, now: Time, key: string, value: string,
                 ttlSeconds: int, version: Version, isReplica: bool, at: Time)
    requires !Blank(key)
    ensures var found := Live(HandleSet(targets, node, items, now, key, value, ttlSeconds, version, isReplica).items,
                              key, at);
            && (found.Some? <==> StillLives(now, ttlSeconds, at))
            && (found.Some? ==> KeptAs(value, found.value.value))
  {
  }

  /** What a set sends on: the key with the stored value, the TTL of the request and the stored version, to the
      second node of the list unless that is this node or has no address. */
  lemma SetIsPassedOn(targets: seq<NodeTarget>, node: string, items: Items, now: Time, key: string, value: string,
                      ttlSeconds: int, version: Version)
    requires !Blank(key)
    ensures var o := HandleSet(targets, node, items, now, key, value, ttlSeconds, version, false);
            && |o.sends| == (if exists to :: PassesOnTo(targets, node, to) then 1 else 0)
            && (forall m :: m in o.sends ==>
                  && m.ReplicateMsg? && PassesOnTo(targets, node, m.to) && m.key == key
                  && m.value == o.items[key].value && m.version == o.items[key].version
                  && (if ttlSeconds > 0 then m.ttlSeconds == ttlSeconds else m.ttlSeconds == 0))
    ensures HandleSet(targets, node, items, now, key, value, ttlSeconds, version, true).sends == multiset{}
  {
    var item := HandleSet(targets, node, items, now, key, value, ttlSeconds, version, false).items[key];
    WholeSeconds(ttlSeconds);
    if |targets| > 1 && PassesOnTo(targets, node, targets[1]) {
      assert SetSends(targets, node, item, CopyTTL(ttlSeconds)) ==
             multiset{ReplicateMsg(targets[1], key, item.value, PayloadSeconds(CopyTTL(ttlSeconds)), item.version)};
    } else {
      assert SetSends(targets, node, item, CopyTTL(ttlSeconds)) == multiset{};
    }
  }

  lemma WholeSeconds(ttlSeconds: int)
    ensures PayloadSeconds(CopyTTL(ttlSeconds)) == if ttlSeconds > 0 then ttlSeconds else 0
  {
  }

  /** A replicated set is stored as it came, flagged as a replica, and lives for its TTL from its arrival on. */
  lemma ReplicaIsStored(items: Items, now: Time, key: string, value: string, ttlSeconds: int, version: Version,
                        at: Time)
    ensures var o := HandleReplicate(items, now, key, value, ttlSeconds, version);
            && o.sends == multiset{} && key in o.items && OthersKept(items, o.items, key)
            && o.items[key].key == key && o.items[key].value == value && o.items[key].isReplica
            && o.items[key].createdAt == now && VersionAfter(items, key, version, o.items[key].version)
            && (Live(o.items, key, at).Some? <==> StillLives(now, ttlSeconds, at))
  {
  }

  /** The replica of a set with a TTL lives as long as the set, counted from its own arrival: it outlives the
      original by exactly its delay. */
  lemma ReplicaOutlivesByItsDelay(targets: seq<NodeTarget>, node: string, items: Items, now: Time, key: string,
                                  value: string, ttlSeconds: int, version: Version, m: Message, there: Items,
                                  arrival: Time, at: Time)
    requires !Blank(key)
             && m in HandleSet(targets, node, items, now, key, value, ttlSeconds, version, false).sends
    ensures m.ReplicateMsg? && m.key == key
    ensures var copies := HandleReplicate(there, arrival, key, m.value, m.ttlSeconds, m.version).items;
            var originals := HandleSet(targets, node, items, now, key, value, ttlSeconds, version, false).items;
            && (Live(copies, key, at).Some? <==> StillLives(arrival, ttlSeconds, at))
            && (Live(copies, key, at).Some? <==> Live(originals, key, at - (arrival - now)).Some?)
            && copies[key].value == originals[key].value
  {
    SetIsPassedOn(targets, node, items, now, key, value, ttlSeconds, version);
    ReplicaIsStored(there, arrival, key, m.value, m.ttlSeconds, m.version, at);
    SetLives(targets, node, items, now, key, value, ttlSeconds, version, false, at - (arrival - now));
  }

  // ---------------------------------------------------------------- reads and hot-key copies

  /** A read changes what no other read sees, whenever it comes. */
  lemma ReadsChangeNoAnswer(targets: seq<NodeTarget>, node: string, items: Items, now: Time, key: string, isHot: bool,
                            other: string, at: Time)
    requires now <= at
    ensures Live(HandleGet(targets, node, items, now, key, isHot).items, other, at) == Live(items, other, at)
  {
  }

  /** A hot read of a live item sends one copy, to the third node of the list, unless that is this node or has no
      address; nothing else is sent by any read. */
  lemma HotReadSends(targets: seq<NodeTarget>, node: string, items: Items, now: Time, key: string, isHot: bool)
    ensures var sends := HandleGet(targets, node, items, now, key, isHot).sends;
            && (sends != multiset{} <==>
                  && isHot && Live(items, key, now).Some?
                  && |targets| > 2 && targets[2].nodeId != node && targets[2].addr != "")
            && |sends| <= 1
            && (forall m :: m in sends ==> m.ReplicateMsg? && |targets| > 2 && m.to == targets[2])
  {
    match Live(items, key, now)
    case Some(item) =>
      if isHot && |targets| > 2 && targets[2].nodeId != node && targets[2].addr != "" {
        var m := ReplicateMsg(targets[2], item.key, item.value, PayloadSeconds(CopyTTL(TTLRemaining(item, now))),
                              item.version);
        assert Promotion(targets, node, item, now) == multiset{m};
        assert m in Promotion(targets, node, item, now);
      }
    case None =>
  }

  /** The lifetime of a copy that was sent at `now` and arrived at `arrival`: it never expires exactly when its
      source had no expiry or less than a second left; otherwise it keeps to the source's expiry, plus its delay,
      and falls short of that by less than a second. */
  predicate CopyLifetime(source: Item, copy: Item, now: Time, arrival: Time) {
    && (copy.expiresAt.None? <==> source.expiresAt.None? || source.expiresAt.value - now < NANOSECONDS)
    && (copy.expiresAt.Some? && source.expiresAt.Some? ==>
          source.expiresAt.value - NANOSECONDS < copy.expiresAt.value - (arrival - now) <= source.expiresAt.value)
  }

  lemma RemainingSeconds(item: Item, now: Time, arrival: Time, copy: Item)
    requires !IsExpired(item, now)
    requires var ttl := CopyTTL(PayloadSeconds(CopyTTL(TTLRemaining(item, now))));
             copy.expiresAt == if ttl > 0 then Some(arrival + ttl) else None
    ensures CopyLifetime(item, copy, now, arrival)
  {
  }

  /** What the receiver of a hot-key copy holds: the key, the value and the version of the item that was read,
      flagged as a replica, for the rest of its life in whole seconds. */
  lemma HotCopyIsExact(targets: seq<NodeTarget>, node: string, items: Items, now: Time, key: string, isHot: bool,
                       m: Message, there: Items, arrival: Time)
    requires m in HandleGet(targets, node, items, now, key, isHot).sends
    requires forall k :: k in items ==> items[k].key == k
    ensures key in items && m.ReplicateMsg? && m.key == key
    ensures var copies := HandleReplicate(there, arrival, key, m.value, m.ttlSeconds, m.version).items;
            var (source, copy) := (items[key], copies[key]);
            && copy.key == key && copy.value == source.value && copy.isReplica
            && (source.version != 0 ==> copy.version == source.version)
            && CopyLifetime(source, copy, now, arrival)
  {
    var item := Live(items, key, now).value;
    HotCopySent(targets, node, item, now, m);
    RemainingSeconds(item, now, arrival,
                     HandleReplicate(there, arrival, key, m.value, m.ttlSeconds, m.version).items[key]);
  }

  lemma HotCopySent(targets: seq<NodeTarget>, node: string, item: Item, now: Time, m: Message)
    requires m in Promotion(targets, node, item, now)
    ensures |targets| > 2 && m == ReplicateMsg(targets[2], item.key, item.value,
                                               PayloadSeconds(CopyTTL(TTLRemaining(item, now))), item.version)
  {
  }

  // ---------------------------------------------------------------- deletes

  /** A delete of a blank key is refused. Any other takes the key away, whether or not it was there, leaves the
      rest alone and goes on to the second node of the list, unless that is this node or has no address. */
  lemma DeleteErases(targets: seq<NodeTarget>, node: string, items: Items, key: string)
    ensures var o := HandleDelete(targets, node, items, key);
            if Blank(key) then o == Outcome(items, multiset{})
            else
              && key !in o.items && OthersKept(items, o.items, key)
              && |o.sends| == (if exists to :: PassesOnTo(targets, node, to) then 1 else 0)
              && (forall m :: m in o.sends ==> m.ReplicateDeleteMsg? && PassesOnTo(targets, node, m.to) && m.key == key)
  {
    if |targets| > 1 && PassesOnTo(targets, node, targets[1]) {
      assert DeleteSends(targets, node, key) == multiset{ReplicateDeleteMsg(targets[1], key)};
    } else {
      assert DeleteSends(targets, node, key) == multiset{};
    }
  }

  /** A replicated delete takes any key but the empty one away and sends nothing. */
  lemma ReplicatedDeleteErases(items: Items, key: string)
    ensures var o := HandleReplicateDelete(items, key);
            && o.sends == multiset{} && OthersKept(items, o.items, key)
            && (if key == "" then o.items == items else key !in o.items)
  {
  }

  // ---------------------------------------------------------------- what the gateway posts

  predicate CarriesRequest(x: Session, m: Message) {
    match x
    case SetSession(key, value, ttl, _, _) => m.SetMsg? && m.key == key && m.value == value && m.ttlSeconds == ttl
    case DeleteSession(key, _) => m.DeleteMsg? && m.key == key
  }

  /** The node that a request is posted to first. */
  predicate PostedFirst(x: Session, to: NodeTarget) {
    if x.SetSession? && x.diverted then |x.targets| > 1 && to == x.targets[1] else |x.targets| > 0 && to == x.targets[0]
  }

  /** Every post of a request carries its key, value and TTL. The first goes to the primary, or to the replica if
      the set is diverted. */
  lemma FirstPostCarriesRequest(x: Session)
    ensures |FirstPost(x)| <= 1
    ensures forall m :: m in FirstPost(x) ==> CarriesRequest(x, m) && PostedFirst(x, m.to)
    ensures x.targets != [] && (x.SetSession? && x.diverted ==> |x.targets| > 1) ==> |FirstPost(x)| == 1
  {
  }

  /** After an answer, only a set goes on, to the replica, unless that has no address or the address that was posted
      to first. After an error, the request goes to the replica, unless it was diverted there before. */
  lemma LaterPostsCarryRequest(x: Session)
    requires x.SetSession? && x.diverted ==> |x.targets| > 1
    ensures |AfterOk(x)| <= 1 && |AfterError(x)| <= 1
    ensures forall m :: m in AfterOk(x) + AfterError(x) ==>
              CarriesRequest(x, m) && |x.targets| > 1 && m.to == x.targets[1]
    ensures AfterOk(x) != multiset{} <==>
            && x.SetSession? && |x.targets| > 1 && x.targets[1].addr != ""
            && (forall to :: PostedFirst(x, to) ==> to.addr != x.targets[1].addr)
    ensures AfterError(x) != multiset{} <==> |x.targets| > 1 && !(x.SetSession? && x.diverted)
  {
    if |x.targets| > 1 {
      assert PostedFirst(x, if x.SetSession? && x.diverted then x.targets[1] else x.targets[0]);
      SecondPosts(x);
    }
  }

  lemma SecondPosts(x: Session)
    requires |x.targets| > 1
    ensures x.SetSession? ==>
              var copy := multiset{SetMsg(x.targets[1], x.key, x.value, x.ttlSeconds)};
              AfterOk(x) in {multiset{}, copy} && AfterError(x) in {multiset{}, copy}
    ensures x.DeleteSession? ==>
              AfterOk(x) == multiset{} && AfterError(x) == multiset{DeleteMsg(x.targets[1], x.key)}
  {
  }
}
