/** Every run of the detector on a clock that does not go back agrees with the full access log. */
module DetectorRuns {
  import opened Base
  import opened Detector

  datatype Call =
    | RecordCall(key: string, at: Time)
    | QueryCall(key: string, at: Time)
    | ListCall(at: Time)

  function Apply(c: Config, s: State, call: Call): State {
    match call
    case RecordCall(key, at) => Record(c, s, key, at)
    case QueryCall(_, _) => s
    case ListCall(at) => List(c, s, at)
  }

  const INITIAL: State := State(map[], map[])

  function Run(c: Config, s: State, calls: seq<Call>): State {
    if calls == [] then s else Apply(c, Run(c, s, calls[..|calls| - 1]), calls[|calls| - 1])
  }

  /** Times are positive, since the zero time stands for "never", and do not decrease. */
  ghost predicate Monotone(calls: seq<Call>) {
    && (forall i :: 0 <= i < |calls| ==> calls[i].at > ZERO_TIME)
    && forall i, j :: 0 <= i < j < |calls| ==> calls[i].at <= calls[j].at
  }

  /** The accesses to `key` after `cutoff`, in the log of all calls. */
  function LogCount(calls: seq<Call>, key: string, cutoff: Time): nat {
    if calls == [] then
      0
    else
      var last := calls[|calls| - 1];
      LogCount(calls[..|calls| - 1], key, cutoff)
      + if last.RecordCall? && last.key == key && last.at > cutoff then 1 else 0
  }

  lemma {:induction false} LogCountShrinks(calls: seq<Call>, key: string, cutoff: Time, later: Time)
    requires cutoff <= later
    ensures LogCount(calls, key, later) <= LogCount(calls, key, cutoff)
  {
    if calls == [] {
    } else {
      LogCountShrinks(calls[..|calls| - 1], key, cutoff, later);
    }
  }

  // ---------------------------------------------------------------- pruning loses nothing that counts

  lemma {:induction false} CountAfterPruning(b: seq<Bucket>, cutoff: Time, later: Time)
    requires cutoff <= later
    ensures Count(After(b, cutoff), later) == Count(b, later)
  {
    if b == [] {
    } else {
      var rest, last := b[..|b| - 1], b[|b| - 1];
      CountAfterPruning(rest, cutoff, later);
      assert b == rest + [last];
      AfterSnoc(rest, last, cutoff);
      CountSnoc(After(rest, cutoff), last, later);
      CountSnoc(rest, last, later);
    }
  }

  lemma AfterSnoc(b: seq<Bucket>, x: Bucket, cutoff: Time)
    ensures After(b + [x], cutoff) == if x.timestamp > cutoff then After(b, cutoff) + [x] else After(b, cutoff)
  {
  }

  lemma CountSnoc(b: seq<Bucket>, x: Bucket, cutoff: Time)
    ensures Count(b + [x], cutoff) == Count(b, cutoff) + if x.timestamp > cutoff then x.count else 0
  {
  }

  /** Buckets and log count the same after the cutoff. */
  ghost predicate CountAlike(s: State, calls: seq<Call>, k: string, cutoff: Time) {
    Count(Buckets(s, k), cutoff) == LogCount(calls, k, cutoff)
  }

  /** They do for every cutoff that can still be asked for. */
  ghost predicate Tracks(c: Config, s: State, calls: seq<Call>, clock: Time) {
    forall k, cutoff :: cutoff >= clock - c.window ==> CountAlike(s, calls, k, cutoff)
  }

  lemma LogSnoc(calls: seq<Call>, call: Call, key: string, cutoff: Time)
    ensures LogCount(calls + [call], key, cutoff) == LogCount(calls, key, cutoff)
      + if call.RecordCall? && call.key == key && call.at > cutoff then 1 else 0
  {
  }

  /** What a call makes of the buckets of one key. */
  function NextBuckets(c: Config, b: seq<Bucket>, call: Call, key: string): seq<Bucket> {
    match call
    case RecordCall(k, at) => if k == key then After(b, at - c.window) + [Bucket(1, at)] else b
    case QueryCall(_, _) => b
    case ListCall(at) => After(b, at - c.window)
  }

  lemma BucketsAfter(c: Config, s: State, call: Call, key: string)
    ensures Buckets(Apply(c, s, call), key) == NextBuckets(c, Buckets(s, key), call, key)
  {
  }

  lemma RecordedCount(b: seq<Bucket>, oldest: Time, at: Time, cutoff: Time)
    requires cutoff >= oldest
    ensures Count(After(b, oldest) + [Bucket(1, at)], cutoff) == Count(b, cutoff) + if at > cutoff then 1 else 0
  {
    CountAfterPruning(b, oldest, cutoff);
    CountSnoc(After(b, oldest), Bucket(1, at), cutoff);
  }

  lemma CountNext(c: Config, b: seq<Bucket>, call: Call, key: string, cutoff: Time)
    requires cutoff >= call.at - c.window
    ensures Count(NextBuckets(c, b, call, key), cutoff) == Count(b, cutoff)
      + if call.RecordCall? && call.key == key && call.at > cutoff then 1 else 0
  {
    if call.RecordCall? && call.key == key {
      RecordedCount(b, call.at - c.window, call.at, cutoff);
    } else if call.ListCall? {
      CountAfterPruning(b, call.at - c.window, cutoff);
    }
  }

  lemma CountAlikeNext(c: Config, s: State, calls: seq<Call>, call: Call, k: string, cutoff: Time)
    requires CountAlike(s, calls, k, cutoff) && cutoff >= call.at - c.window
    ensures CountAlike(Apply(c, s, call), calls + [call], k, cutoff)
  {
    LogSnoc(calls, call, k, cutoff);
    BucketsAfter(c, s, call, k);
    CountNext(c, Buckets(s, k), call, k, cutoff);
  }

  lemma TracksStep(c: Config, s: State, calls: seq<Call>, clock: Time, call: Call)
    requires Tracks(c, s, calls, clock) && clock <= call.at
    ensures Tracks(c, Apply(c, s, call), calls + [call], call.at)
  {
    forall k, cutoff | cutoff >= call.at - c.window ensures CountAlike(Apply(c, s, call), calls + [call], k, cutoff) {
      assert CountAlike(s, calls, k, cutoff);
      CountAlikeNext(c, s, calls, call, k, cutoff);
    }
  }

  // ---------------------------------------------------------------- hot keys are already marked

  /** A key at or above the threshold has a mark, and marks are real times. */
  predicate MarkFits(mark: Option<Time>, count: nat, threshold: nat) {
    (mark.Some? ==> mark.value > ZERO_TIME) && (count >= threshold ==> mark.Some?)
  }

  ghost predicate MarkedRight(c: Config, s: State, calls: seq<Call>, clock: Time, k: string) {
    MarkFits(Entry(s.hotKeys, k), LogCount(calls, k, clock - c.window), c.threshold)
  }

  ghost predicate HotMarked(c: Config, s: State, calls: seq<Call>, clock: Time) {
    forall k :: MarkedRight(c, s, calls, clock, k)
  }

  lemma QueryIsLog(c: Config, s: State, calls: seq<Call>, clock: Time, k: string, now: Time)
    requires Tracks(c, s, calls, clock) && clock <= now
    ensures QueryCount(c, s, k, now) == LogCount(calls, k, now - c.window)
  {
    assert CountAlike(s, calls, k, now - c.window);
  }

  lemma StillMarked(c: Config, s: State, calls: seq<Call>, clock: Time, k: string, now: Time)
    requires Tracks(c, s, calls, clock) && HotMarked(c, s, calls, clock) && clock <= now
    ensures QueryCount(c, s, k, now) == LogCount(calls, k, now - c.window)
    ensures MarkFits(Entry(s.hotKeys, k), QueryCount(c, s, k, now), c.threshold)
  {
    QueryIsLog(c, s, calls, clock, k, now);
    LogCountShrinks(calls, k, clock - c.window, now - c.window);
    assert MarkedRight(c, s, calls, clock, k);
  }

  lemma RecordedTotal(c: Config, s: State, key: string, now: Time)
    ensures Total(After(Buckets(s, key), now - c.window) + [Bucket(1, now)]) == RecordCount(c, s, key, now)
  {
    TotalSnoc(After(Buckets(s, key), now - c.window), Bucket(1, now));
  }

  /** What a recorded access makes of the mark of `k`. */
  lemma MarkAfterRecord(c: Config, s: State, key: string, now: Time, k: string)
    ensures var mark := Entry(s.hotKeys, k);
            Entry(Record(c, s, key, now).hotKeys, k) ==
            if k != key then mark
            else if RecordCount(c, s, key, now) < c.threshold then None
            else if mark.Some? then mark else Some(now)
  {
    RecordedTotal(c, s, key, now);
  }

  lemma MarkAfterList(c: Config, s: State, now: Time, k: string)
    ensures Entry(List(c, s, now).hotKeys, k) == MarkAfter(c, s, k, now)
  {
  }

  lemma RecordMarks(c: Config, s: State, calls: seq<Call>, clock: Time, call: Call, k: string)
    requires Tracks(c, s, calls, clock) && HotMarked(c, s, calls, clock)
    requires clock <= call.at && call.at > ZERO_TIME && call.RecordCall?
    ensures MarkedRight(c, Apply(c, s, call), calls + [call], call.at, k)
  {
    StillMarked(c, s, calls, clock, k, call.at);
    MarkAfterRecord(c, s, call.key, call.at, k);
    LogSnoc(calls, call, k, call.at - c.window);
  }

  lemma ListMarks(c: Config, s: State, calls: seq<Call>, clock: Time, call: Call, k: string)
    requires Configured(c) && Tracks(c, s, calls, clock) && HotMarked(c, s, calls, clock)
    requires clock <= call.at && call.at > ZERO_TIME && call.ListCall?
    ensures MarkedRight(c, Apply(c, s, call), calls + [call], call.at, k)
  {
    StillMarked(c, s, calls, clock, k, call.at);
    MarkAfterList(c, s, call.at, k);
    LogSnoc(calls, call, k, call.at - c.window);
  }

  lemma MarkedStep(c: Config, s: State, calls: seq<Call>, clock: Time, call: Call)
    requires Configured(c) && Tracks(c, s, calls, clock) && HotMarked(c, s, calls, clock)
    requires clock <= call.at && call.at > ZERO_TIME
    ensures HotMarked(c, Apply(c, s, call), calls + [call], call.at)
  {
    forall k ensures MarkedRight(c, Apply(c, s, call), calls + [call], call.at, k) {
      match call
      case RecordCall(_, _) => RecordMarks(c, s, calls, clock, call, k);
      case ListCall(_) => ListMarks(c, s, calls, clock, call, k);
      case QueryCall(_, _) =>
        LogSnoc(calls, call, k, call.at - c.window);
        StillMarked(c, s, calls, clock, k, call.at);
    }
  }

  function Clock(calls: seq<Call>): Time {
    if calls == [] then ZERO_TIME else calls[|calls| - 1].at
  }

  lemma {:induction false} EveryRunTracks(c: Config, calls: seq<Call>)
    requires Configured(c) && Monotone(calls)
    ensures Tracks(c, Run(c, INITIAL, calls), calls, Clock(calls))
    ensures HotMarked(c, Run(c, INITIAL, calls), calls, Clock(calls))
  {
    if calls == [] {
    } else {
      var before, call := calls[..|calls| - 1], calls[|calls| - 1];
      assert calls == before + [call];
      EveryRunTracks(c, before);
      TracksStep(c, Run(c, INITIAL, before), before, Clock(before), call);
      MarkedStep(c, Run(c, INITIAL, before), before, Clock(before), call);
    }
  }

  // ---------------------------------------------------------------- what callers are told

  /** After any run, each call reports the exact number of accesses in the window, and the list has
      exactly the keys at or above the threshold. */
  lemma ReportsMatchLog(c: Config, calls: seq<Call>, key: string, now: Time)
    requires Configured(c) && Monotone(calls) && now >= Clock(calls) && now > ZERO_TIME
    ensures var s := Run(c, INITIAL, calls);
            && RecordCount(c, s, key, now) == LogCount(calls + [RecordCall(key, now)], key, now - c.window)
            && QueryCount(c, s, key, now) == LogCount(calls, key, now - c.window)
            && Listed(c, s, key, now).requestCount == LogCount(calls, key, now - c.window)
            && (key in HotSet(c, s, now) <==> LogCount(calls, key, now - c.window) >= c.threshold)
  {
    var s := Run(c, INITIAL, calls);
    EveryRunTracks(c, calls);
    StillMarked(c, s, calls, Clock(calls), key, now);
    LogSnoc(calls, RecordCall(key, now), key, now - c.window);
    HotSetMembers(c, s, key, now);
  }

  lemma HotSetMembers(c: Config, s: State, key: string, now: Time)
    requires Configured(c)
    ensures key in HotSet(c, s, now) <==> QueryCount(c, s, key, now) >= c.threshold
  {
  }

  /** In every reachable state a key found hot already has its detection time, so listing never has to
      invent one, and reports the stored time. */
  lemma DetectionTimeIsKnown(c: Config, calls: seq<Call>, key: string, now: Time)
    requires Configured(c) && Monotone(calls) && now >= Clock(calls)
    requires HotNow(c, Run(c, INITIAL, calls), key, now)
    ensures var s := Run(c, INITIAL, calls);
            && key in s.hotKeys && DetectedAt(s, key) != ZERO_TIME
            && Listed(c, s, key, now).detectedAt == s.hotKeys[key]
  {
    EveryRunTracks(c, calls);
    StillMarked(c, Run(c, INITIAL, calls), calls, Clock(calls), key, now);
  }

  // ---------------------------------------------------------------- marks in the log

  /** The log has an access to the key. */
  predicate Accessed(calls: seq<Call>, key: string) {
    exists i :: 0 <= i < |calls| && calls[i].RecordCall? && calls[i].key == key
  }

  /** The call looks at the key: a record looks at its own key, a listing at every key accessed before. */
  ghost predicate LooksAt(before: seq<Call>, call: Call, key: string) {
    (call.RecordCall? && call.key == key) || (call.ListCall? && Accessed(before, key))
  }

  /** A series of calls that found a key hot, after one more. */
  function SeriesAfter(since: Option<Time>, looks: bool, hot: bool, at: Time): Option<Time> {
    if !looks then since else if !hot then None else if since.Some? then since else Some(at)
  }

  /** When the key became hot, as the log has it: the time of the first of an unbroken series of calls that looked at
      the key and found it hot. */
  ghost function HotSince(c: Config, calls: seq<Call>, key: string): Option<Time> {
    if calls == [] then
      None
    else
      var before, last := calls[..|calls| - 1], calls[|calls| - 1];
      SeriesAfter(HotSince(c, before, key), LooksAt(before, last, key),
                  LogCount(calls, key, last.at - c.window) >= c.threshold, last.at)
  }

  lemma AccessedNext(calls: seq<Call>, call: Call, key: string)
    ensures Accessed(calls + [call], key) <==> Accessed(calls, key) || (call.RecordCall? && call.key == key)
  {
    var all := calls + [call];
    if Accessed(calls, key) {
      var i :| 0 <= i < |calls| && calls[i].RecordCall? && calls[i].key == key;
      assert all[i] == calls[i];
    }
    if call.RecordCall? && call.key == key {
      assert all[|calls|] == call;
    }
  }

  lemma {:induction false} TrackedKeys(c: Config, calls: seq<Call>, key: string)
    ensures key in Run(c, INITIAL, calls).keyAccess <==> Accessed(calls, key)
  {
    if calls == [] {
    } else {
      var before, last := calls[..|calls| - 1], calls[|calls| - 1];
      TrackedKeys(c, before, key);
      AccessedNext(before, last, key);
      assert calls == before + [last];
    }
  }

  lemma HotSinceSnoc(c: Config, calls: seq<Call>, call: Call, key: string)
    ensures HotSince(c, calls + [call], key) ==
            SeriesAfter(HotSince(c, calls, key), LooksAt(calls, call, key),
                        LogCount(calls + [call], key, call.at - c.window) >= c.threshold, call.at)
  {
    assert (calls + [call])[..|calls|] == calls;
  }

  lemma RecordMoves(c: Config, s: State, calls: seq<Call>, clock: Time, k: string, at: Time, key: string)
    requires Configured(c) && Tracks(c, s, calls, clock) && clock <= at
    ensures var call := RecordCall(k, at);
            Entry(Record(c, s, k, at).hotKeys, key) ==
            SeriesAfter(Entry(s.hotKeys, key), k == key,
                        LogCount(calls + [call], key, at - c.window) >= c.threshold, at)
  {
    QueryIsLog(c, s, calls, clock, key, at);
    LogSnoc(calls, RecordCall(k, at), key, at - c.window);
    MarkAfterRecord(c, s, k, at, key);
  }

  lemma ListMoves(c: Config, s: State, calls: seq<Call>, clock: Time, at: Time, key: string)
    requires Tracks(c, s, calls, clock) && HotMarked(c, s, calls, clock) && clock <= at
    ensures var call := ListCall(at);
            Entry(List(c, s, at).hotKeys, key) ==
            SeriesAfter(Entry(s.hotKeys, key), key in s.keyAccess,
                        LogCount(calls + [call], key, at - c.window) >= c.threshold, at)
  {
    StillMarked(c, s, calls, clock, key, at);
    LogSnoc(calls, ListCall(at), key, at - c.window);
    MarkAfterList(c, s, at, key);
  }

  lemma MarkMoves(c: Config, s: State, calls: seq<Call>, clock: Time, call: Call, key: string)
    requires Configured(c) && Tracks(c, s, calls, clock) && HotMarked(c, s, calls, clock)
    requires clock <= call.at && (key in s.keyAccess <==> Accessed(calls, key))
    ensures Entry(Apply(c, s, call).hotKeys, key) ==
            SeriesAfter(Entry(s.hotKeys, key), LooksAt(calls, call, key),
                        LogCount(calls + [call], key, call.at - c.window) >= c.threshold, call.at)
  {
    match call
    case RecordCall(k, at) => RecordMoves(c, s, calls, clock, k, at, key);
    case ListCall(at) => ListMoves(c, s, calls, clock, at, key);
    case QueryCall(_, _) =>
  }

  /** In every run, the marks are those of the log: a key is marked exactly since the call that first found it hot,
      for as long as every call that looks at it finds it hot. */
  lemma {:induction false} MarksFollowTheLog(c: Config, calls: seq<Call>, key: string)
    requires Configured(c) && Monotone(calls)
    ensures Entry(Run(c, INITIAL, calls).hotKeys, key) == HotSince(c, calls, key)
  {
    if calls == [] {
    } else {
      var before, call := calls[..|calls| - 1], calls[|calls| - 1];
      MarksFollowTheLog(c, before, key);
      EveryRunTracks(c, before);
      TrackedKeys(c, before, key);
      MarkMoves(c, Run(c, INITIAL, before), before, Clock(before), call, key);
      HotSinceSnoc(c, before, call, key);
      assert calls == before + [call];
    }
  }

  /** The calls that look at the mark of `key`, and what they find. */
  predicate Reevaluates(s: State, call: Call, key: string) {
    (call.RecordCall? && call.key == key) || (call.ListCall? && key in s.keyAccess)
  }

  predicate FindsHot(c: Config, s: State, call: Call, key: string) {
    if call.RecordCall? then RecordCount(c, s, key, call.at) >= c.threshold
    else QueryCount(c, s, key, call.at) >= c.threshold
  }

  /** A mark goes exactly when a call re-evaluates the key and finds it cold. */
  lemma MarkStep(c: Config, s: State, call: Call, key: string)
    requires key in s.hotKeys && s.hotKeys[key] != ZERO_TIME
    ensures Entry(Apply(c, s, call).hotKeys, key)
            == if Reevaluates(s, call, key) && !FindsHot(c, s, call, key) then None else Some(s.hotKeys[key])
  {
    match call
    case RecordCall(k, at) => MarkAfterRecord(c, s, k, at, key);
    case ListCall(at) => MarkAfterList(c, s, at, key);
    case QueryCall(_, _) =>
  }

  /** Over any further calls, the detection time stays as long as each re-evaluation finds the key hot. */
  lemma {:induction false} DetectionTimeIsStable(c: Config, s: State, calls: seq<Call>, key: string)
    requires key in s.hotKeys && s.hotKeys[key] != ZERO_TIME
    requires forall i :: 0 <= i < |calls| && Reevaluates(Run(c, s, calls[..i]), calls[i], key) ==>
      FindsHot(c, Run(c, s, calls[..i]), calls[i], key)
    ensures key in Run(c, s, calls).hotKeys && Run(c, s, calls).hotKeys[key] == s.hotKeys[key]
  {
    if calls == [] {
    } else {
      var n := |calls| - 1;
      var before := calls[..n];
      forall i | 0 <= i < n && Reevaluates(Run(c, s, before[..i]), before[i], key)
        ensures FindsHot(c, Run(c, s, before[..i]), before[i], key)
      {
        assert before[..i] == calls[..i];
      }
      DetectionTimeIsStable(c, s, before, key);
      MarkStep(c, Run(c, s, before), calls[n], key);
    }
  }
}
