/** The cluster health monitor: ALIVE, SUSPECTED and FAILED, driven by the time since a node was last
    seen, with a manual override. */
module Health {
  import opened Base

  datatype NodeState = Alive | Suspected | Failed

  /** `suspect` and `fail` are the two timeouts; `self` is never pinged. */
  datatype Config = Config(self: string, suspect: int, fail: int)

  datatype Member = Member(
    addr: string, state: NodeState, manualOverride: bool, lastSeen: Time, missedPings: nat, lastError: string)

  type Members = map<string, Member>

  function WithDefaults(c: Config): (r: Config)
    ensures r.suspect > 0 && r.fail > 0 && r.self == c.self
    ensures c.suspect <= 0 ==> r.suspect == 2_000_000_000
    ensures c.fail <= 0 ==> r.fail == 4_000_000_000
    ensures c.suspect > 0 ==> r.suspect == c.suspect
    ensures c.fail > 0 ==> r.fail == c.fail
  {
    Config(c.self,
           if c.suspect <= 0 then 2_000_000_000 else c.suspect,
           if c.fail <= 0 then 4_000_000_000 else c.fail)
  }

  // ---------------------------------------------------------------- what one record does to a member

  function NewMember(addr: string, now: Time): Member {
    Member(addr, Alive, false, now, 0, "")
  }

  function OnSuccess(m: Member, now: Time): Member {
    var seen := m.(lastSeen := now, missedPings := 0, lastError := "");
    if m.manualOverride && m.state == Failed then seen else seen.(state := Alive)
  }

  function OnFailure(c: Config, m: Member, reason: string, now: Time): Member {
    var missed := m.(missedPings := m.missedPings + 1, lastError := reason);
    if now - m.lastSeen >= c.fail then missed.(state := Failed)
    else if now - m.lastSeen >= c.suspect then missed.(state := Suspected)
    else missed
  }

  const MANUAL_REASON: string := "Manually marked FAILED by user via dashboard"

  function OnManual(m: Member, newState: NodeState, now: Time): Member {
    match newState
    case Alive => m.(state := Alive, manualOverride := false, lastSeen := now, missedPings := 0, lastError := "")
    case Failed => m.(state := Failed, manualOverride := true, lastError := MANUAL_REASON)
    case Suspected => m.(state := Suspected)
  }

  // ---------------------------------------------------------------- the monitor as the program keeps it

  class Monitor {
    const config: Config
    var members: Members

    constructor (c: Config, selfAddr: string, peers: map<string, string>, now: Time)
      ensures config == WithDefaults(c)
      ensures members.Keys == peers.Keys + {c.self}
      ensures members[c.self] == NewMember(selfAddr, now)
      ensures forall id :: id in peers && id != c.self ==> members[id] == NewMember(peers[id], now)
    {
      config := WithDefaults(c);
      var registered := map[c.self := NewMember(selfAddr, now)];
      var todo := peers.Keys;
      while todo != {}
        invariant todo <= peers.Keys
        invariant registered.Keys == (peers.Keys - todo) + {c.self}
        invariant registered[c.self] == NewMember(selfAddr, now)
        invariant forall id :: id in registered && id != c.self ==> registered[id] == NewMember(peers[id], now)
        decreases |todo|
      {
        var id :| id in todo;
        todo := todo - {id};
        if id != c.self {
          registered := registered[id := NewMember(peers[id], now)];
        }
      }
      members := registered;
    }

    method AddNode(id: string, addr: string, now: Time)
      modifies this
      ensures members == Next(config, old(members), AddMember(id, addr, now))
    {
      if id !in members {
        members := members[id := NewMember(addr, now)];
      } else {
        members := members[id := members[id].(addr := addr)];
      }
    }

    method GetNodeState(id: string) returns (r: Option<NodeState>)
      ensures r == StateOf(members, id)
    {
      if id !in members {
        return None;
      }
      r := Some(members[id].state);
    }

    method SetNodeStateManual(id: string, newState: NodeState, now: Time) returns (known: bool)
      modifies this
      ensures known == (id in old(members))
      ensures members == Next(config, old(members), Manual(id, newState, now))
    {
      if id !in members {
        return false;
      }
      var mem := members[id];
      mem := mem.(state := newState);
      if newState == Alive {
        mem := mem.(manualOverride := false);
        mem := mem.(lastSeen := now);
        mem := mem.(missedPings := 0);
        mem := mem.(lastError := "");
      } else if newState == Failed {
        mem := mem.(manualOverride := true);
        mem := mem.(lastError := MANUAL_REASON);
      }
      members := members[id := mem];
      known := true;
    }

    /** The nodes that one heartbeat cycle pings: everyone but the monitor's own node. */
    method PeersToPing() returns (ids: set<string>)
      ensures ids == members.Keys - {config.self}
    {
      ids := {};
      var todo := members.Keys;
      while todo != {}
        invariant todo <= members.Keys
        invariant ids == members.Keys - todo - {config.self}
        decreases |todo|
      {
        var id :| id in todo;
        todo := todo - {id};
        if id != config.self {
          ids := ids + {id};
        }
      }
    }

    method RecordSuccess(id: string, now: Time)
      modifies this
      ensures members == Next(config, old(members), Success(id, now))
    {
      if id !in members {
        return;
      }
      var mem := members[id];
      mem := mem.(lastSeen := now);
      mem := mem.(missedPings := 0);
      mem := mem.(lastError := "");
      members := members[id := mem];
      if mem.manualOverride && mem.state == Failed {
        return;
      }
      members := members[id := mem.(state := Alive)];
    }

    method RecordFailure(id: string, reason: string, now: Time)
      modifies this
      ensures members == Next(config, old(members), Failure(id, reason, now))
    {
      if id !in members {
        return;
      }
      var mem := members[id];
      mem := mem.(missedPings := mem.missedPings + 1);
      mem := mem.(lastError := reason);
      var elapsed := now - mem.lastSeen;
      var newState := mem.state;
      if elapsed >= config.fail {
        newState := Failed;
      } else if elapsed >= config.suspect {
        newState := Suspected;
      }
      if newState != mem.state {
        mem := mem.(state := newState);
      }
      members := members[id := mem];
    }
  }

  function StateOf(members: Members, id: string): Option<NodeState> {
    if id in members then Some(members[id].state) else None
  }

  // ---------------------------------------------------------------- runs

  datatype Event =
    | Success(id: string, at: Time)
    | Failure(id: string, reason: string, at: Time)
    | Manual(id: string, newState: NodeState, at: Time)
    | AddMember(id: string, addr: string, at: Time)

  function Next(c: Config, ms: Members, e: Event): Members {
    if e.id !in ms then
      if e.AddMember? then ms[e.id := NewMember(e.addr, e.at)] else ms
    else
      var m := ms[e.id];
      ms[e.id := match e
                 case Success(_, at) => OnSuccess(m, at)
                 case Failure(_, reason, at) => OnFailure(c, m, reason, at)
                 case Manual(_, newState, at) => OnManual(m, newState, at)
                 case AddMember(_, addr, _) => m.(addr := addr)]
  }

  function Run(c: Config, ms: Members, events: seq<Event>): Members {
    if events == [] then ms else Next(c, Run(c, ms, events[..|events| - 1]), events[|events| - 1])
  }

  ghost predicate Monotone(from: Time, events: seq<Event>) {
    && (events != [] ==> from <= events[0].at)
    && forall i, j :: 0 <= i < j < |events| ==> events[i].at <= events[j].at
  }

  function Clock(from: Time, events: seq<Event>): Time {
    if events == [] then from else events[|events| - 1].at
  }

  ghost predicate NoManual(events: seq<Event>, id: string) {
    forall i :: 0 <= i < |events| ==> !(events[i].Manual? && events[i].id == id)
  }

  // ---------------------------------------------------------------- what the fields record

  /** When a node was last heard of: its last successful ping, or its last manual revival, or `since` when there
      was neither. */
  function LastContact(since: Time, events: seq<Event>, id: string): Time {
    if events == [] then
      since
    else
      var last := events[|events| - 1];
      if last.id == id && (last.Success? || (last.Manual? && last.newState == Alive)) then last.at
      else LastContact(since, events[..|events| - 1], id)
  }

  /** The reasons of the failed pings since a node was last heard of. */
  function FailuresSince(before: seq<string>, events: seq<Event>, id: string): seq<string> {
    if events == [] then
      before
    else
      var last, earlier := events[|events| - 1], FailuresSince(before, events[..|events| - 1], id);
      if last.id == id && (last.Success? || (last.Manual? && last.newState == Alive)) then []
      else if last.id == id && last.Failure? then earlier + [last.reason]
      else earlier
  }

  /** The address that was registered last. */
  function LastAddress(addr: string, events: seq<Event>, id: string): string {
    if events == [] then
      addr
    else
      var last := events[|events| - 1];
      if last.id == id && last.AddMember? then last.addr else LastAddress(addr, events[..|events| - 1], id)
  }

  /** What a member records of its node, and what the events say about it. */
  ghost predicate Recorded(m: Member, since: Time, failures: seq<string>, addr: string) {
    m.lastSeen == since && m.missedPings == |failures| && m.addr == addr
  }

  lemma RecordedStep(c: Config, ms: Members, e: Event, id: string, since: Time, failures: seq<string>, addr: string)
    requires id in ms && Recorded(ms[id], since, failures, addr)
    ensures id in Next(c, ms, e)
    ensures Recorded(Next(c, ms, e)[id], LastContact(since, [e], id), FailuresSince(failures, [e], id),
                     LastAddress(addr, [e], id))
  {
  }

  lemma LogSnoc(since: Time, failures: seq<string>, addr: string, events: seq<Event>, id: string)
    requires events != []
    ensures var (before, e) := (events[..|events| - 1], [events[|events| - 1]]);
            && LastContact(since, events, id) == LastContact(LastContact(since, before, id), e, id)
            && FailuresSince(failures, events, id) == FailuresSince(FailuresSince(failures, before, id), e, id)
            && LastAddress(addr, events, id) == LastAddress(LastAddress(addr, before, id), e, id)
  {
    var e := [events[|events| - 1]];
    assert e[..|e| - 1] == [];
  }

  /** Over every run, pings, registrations and manual transitions mixed: `lastSeen` is the time of the last contact,
      `missedPings` the number of failed pings since, and the address the one registered last. */
  lemma {:induction false} FieldsFollowTheLog(c: Config, ms: Members, events: seq<Event>, id: string,
                                              failures: seq<string>)
    requires id in ms && ms[id].missedPings == |failures|
    ensures id in Run(c, ms, events)
    ensures var m := Run(c, ms, events)[id];
            && m.lastSeen == LastContact(ms[id].lastSeen, events, id)
            && m.missedPings == |FailuresSince(failures, events, id)|
            && m.addr == LastAddress(ms[id].addr, events, id)
  {
    if events == [] {
    } else {
      var before := events[..|events| - 1];
      FieldsFollowTheLog(c, ms, before, id, failures);
      RecordedStep(c, Run(c, ms, before), events[|events| - 1], id, LastContact(ms[id].lastSeen, before, id),
                   FailuresSince(failures, before, id), LastAddress(ms[id].addr, before, id));
      LogSnoc(ms[id].lastSeen, failures, ms[id].addr, events, id);
    }
  }

  /** A member that a run registers is ALIVE, under its address and without override, and was last heard of then. */
  lemma RegisteredThen(c: Config, ms: Members, events: seq<Event>, id: string, addr: string, at: Time)
    requires id !in Run(c, ms, events)
    ensures var m := Next(c, Run(c, ms, events), AddMember(id, addr, at));
            && id in m && m[id].addr == addr && m[id].state == Alive && !m[id].manualOverride
            && m[id].lastSeen == at && m[id].missedPings == 0 && m[id].lastError == ""
            && forall x :: x != id ==> StateOf(m, x) == StateOf(Run(c, ms, events), x)
  {
  }

  /** What one event makes of a node's state and last error after any run: a manual transition leaves exactly the
      requested state; a successful ping leaves ALIVE unless the node is FAILED under a forced mark; a failed ping
      goes by the time since the last contact; nothing else changes them. */
  lemma StateAfter(c: Config, ms: Members, events: seq<Event>, e: Event, id: string)
    requires id in ms && id in Run(c, ms, events)
    ensures id in Next(c, Run(c, ms, events), e)
    ensures var (m, m') := (Run(c, ms, events)[id], Next(c, Run(c, ms, events), e)[id]);
            var elapsed := e.at - LastContact(ms[id].lastSeen, events, id);
            var held := m.state == Failed && Forced(ms[id].manualOverride, events, id);
            if e.id != id || e.AddMember? then m'.state == m.state && m'.lastError == m.lastError
            else if e.Manual? then
              && m'.state == e.newState
              && (e.newState == Alive ==> m'.lastError == "")
              && (e.newState == Suspected ==> m'.lastError == m.lastError)
              && (e.newState == Failed ==> m'.lastError == MANUAL_REASON)
            else if e.Success? then m'.lastError == "" && m'.state == (if held then Failed else Alive)
            else
              && m'.lastError == e.reason
              && m'.state == if elapsed >= c.fail then Failed else if elapsed >= c.suspect then Suspected else m.state
  {
    OverrideFollowsManual(c, ms, events, id);
    FieldsFollowTheLog(c, ms, events, id, Blanks(ms[id].missedPings));
  }

  function Blanks(n: nat): (s: seq<string>)
    ensures |s| == n
  {
    seq(n, _ => "")
  }

  // ---------------------------------------------------------------- failure detection without overrides

  function Classify(c: Config, elapsed: int): NodeState {
    if elapsed >= c.fail then Failed else if elapsed >= c.suspect then Suspected else Alive
  }

  function Severity(s: NodeState): nat {
    match s case Alive => 0 case Suspected => 1 case Failed => 2
  }

  /** When the last failed ping since the last successful one happened. */
  function LastFailure(events: seq<Event>, id: string): Option<Time> {
    if events == [] then
      None
    else
      var last := events[|events| - 1];
      if last.id == id && last.Success? then None
      else if last.id == id && last.Failure? then Some(last.at)
      else LastFailure(events[..|events| - 1], id)
  }

  /** A member that was just registered. */
  ghost predicate Registered(ms: Members, id: string, now: Time) {
    id in ms && ms[id].state == Alive && !ms[id].manualOverride && ms[id].lastSeen <= now
  }

  /** The state is the classification of the time that the last failed ping measured. */
  ghost predicate Detected(c: Config, m: Member, lastFailure: Option<Time>, clock: Time) {
    && !m.manualOverride
    && m.lastSeen <= clock
    && match lastFailure
       case None => m.state == Alive
       case Some(t) => m.lastSeen <= t <= clock && m.state == Classify(c, t - m.lastSeen)
  }

  /** The last failed ping after one more event. */
  function FailureAfter(last: Option<Time>, e: Event, id: string): Option<Time> {
    if e.id == id && e.Success? then None else if e.id == id && e.Failure? then Some(e.at) else last
  }

  lemma DetectedStep(c: Config, ms: Members, e: Event, id: string, last: Option<Time>, clock: Time)
    requires id in ms && Detected(c, ms[id], last, clock) && clock <= e.at && !(e.Manual? && e.id == id)
    requires c.suspect > 0 && c.fail > 0
    ensures id in Next(c, ms, e) && Detected(c, Next(c, ms, e)[id], FailureAfter(last, e, id), e.at)
  {
  }

  lemma {:induction false} StateIsClassification(c: Config, ms: Members, from: Time, events: seq<Event>, id: string)
    requires Registered(ms, id, from) && Monotone(from, events) && NoManual(events, id)
    requires c.suspect > 0 && c.fail > 0
    ensures id in Run(c, ms, events)
    ensures Detected(c, Run(c, ms, events)[id], LastFailure(events, id), Clock(from, events))
  {
    if events == [] {
    } else {
      var before, e := events[..|events| - 1], events[|events| - 1];
      StateIsClassification(c, ms, from, before, id);
      DetectedStep(c, Run(c, ms, before), e, id, LastFailure(before, id), Clock(from, before));
    }
  }

  /** The state that an elapsed time calls for. */
  predicate CalledFor(c: Config, elapsed: int, state: NodeState) {
    && (state == Failed <==> elapsed >= c.fail)
    && (state == Suspected <==> c.suspect <= elapsed < c.fail)
  }

  /** Without manual overrides: right after a failed ping the state is the one that the time since the last
      successful ping, or since the start, calls for; and only a successful ping lowers the severity. */
  lemma FailureDetection(c: Config, ms: Members, from: Time, events: seq<Event>, e: Event, id: string)
    requires c.suspect > 0 && c.fail > 0
    requires Registered(ms, id, from) && Monotone(from, events + [e]) && NoManual(events + [e], id)
    ensures id in Run(c, ms, events) && id in Run(c, ms, events + [e])
    ensures var (before, after) := (Run(c, ms, events)[id], Run(c, ms, events + [e])[id]);
            && (e.Failure? && e.id == id ==>
                  CalledFor(c, e.at - LastContact(ms[id].lastSeen, events, id), after.state))
            && (Severity(after.state) < Severity(before.state) ==> e.Success? && e.id == id)
  {
    var all := events + [e];
    assert all[..|events|] == events;
    assert Monotone(from, events) && NoManual(events, id) by {
      assert forall i :: 0 <= i < |events| ==> events[i] == all[i];
    }
    StateIsClassification(c, ms, from, events, id);
    StateIsClassification(c, ms, from, all, id);
    FieldsFollowTheLog(c, ms, events, id, Blanks(ms[id].missedPings));
    StateAfter(c, ms, events, e, id);
  }

  /** The time from which the next failed ping is counted: the last failed ping, or the last contact if that was
      later. */
  function CountedFrom(since: Time, events: seq<Event>, id: string): Time {
    match LastFailure(events, id) case Some(t) => t case None => LastContact(since, events, id)
  }

  /** Failed pings follow the last contact, and one another, within `gap`. */
  ghost predicate FailuresWithin(since: Time, events: seq<Event>, id: string, gap: int) {
    forall i :: 0 <= i < |events| && events[i].Failure? && events[i].id == id ==>
      events[i].at - CountedFrom(since, events[..i], id) <= gap
  }

  lemma NoDirectJump(c: Config, ms: Members, from: Time, events: seq<Event>, i: nat, id: string)
    requires c.suspect > 0 && c.fail > 0 && i < |events|
    requires Registered(ms, id, from) && Monotone(from, events) && NoManual(events, id)
    requires FailuresWithin(ms[id].lastSeen, events, id, c.fail - c.suspect)
    ensures StateOf(Run(c, ms, events[..i]), id) == Some(Alive) ==>
            StateOf(Run(c, ms, events[..i + 1]), id) != Some(Failed)
  {
    var before := events[..i];
    assert events[..i + 1][..i] == before;
    StateIsClassification(c, ms, from, before, id);
    FieldsFollowTheLog(c, ms, before, id, Blanks(ms[id].missedPings));
  }

  /** The states of a node along a run. */
  function Trace(c: Config, ms: Members, events: seq<Event>, id: string): (t: seq<Option<NodeState>>)
    ensures |t| == |events| + 1
    ensures forall i :: 0 <= i <= |events| ==> t[i] == StateOf(Run(c, ms, events[..i]), id)
  {
    seq(|events| + 1, i requires 0 <= i <= |events| => StateOf(Run(c, ms, events[..i]), id))
  }

  lemma {:induction false} Between(t: seq<Option<NodeState>>, i: nat, j: nat)
    requires i < j < |t| && t[i] == Some(Alive) && t[j] == Some(Failed)
    requires forall k :: 0 <= k < |t| ==> t[k].Some?
    requires forall k :: 0 <= k < |t| - 1 ==> t[k] == Some(Alive) ==> t[k + 1] != Some(Failed)
    ensures exists k :: i < k < j && t[k] == Some(Suspected)
    decreases j
  {
    var before := t[j - 1].value;
    assert t[j - 1] == Some(before) && before != Alive;
    assert before == Suspected || before == Failed;
    if before == Failed {
      Between(t, i, j - 1);
    }
  }

  /** With failed pings no further apart than the two timeouts, every way from ALIVE to FAILED leads
      through SUSPECTED. */
  lemma SuspectedOnTheWay(c: Config, ms: Members, from: Time, events: seq<Event>, i: nat, j: nat, id: string)
    requires c.suspect > 0 && c.fail > 0 && i < j <= |events|
    requires Registered(ms, id, from) && Monotone(from, events) && NoManual(events, id)
    requires FailuresWithin(ms[id].lastSeen, events, id, c.fail - c.suspect)
    requires Trace(c, ms, events, id)[i] == Some(Alive) && Trace(c, ms, events, id)[j] == Some(Failed)
    ensures exists k :: i < k < j && Trace(c, ms, events, id)[k] == Some(Suspected)
  {
    var t := Trace(c, ms, events, id);
    forall k | 0 <= k < |t| ensures t[k].Some? {
      StateIsClassification(c, ms, from, events[..k], id);
    }
    forall k | 0 <= k < |t| - 1 ensures t[k] == Some(Alive) ==> t[k + 1] != Some(Failed) {
      NoDirectJump(c, ms, from, events, k, id);
    }
    Between(t, i, j);
  }

  // ---------------------------------------------------------------- manual overrides

  /** A failed ping that lands between the two timeouts. */
  predicate LandsInWindow(c: Config, m: Member, e: Event) {
    e.Failure? && e.at - m.lastSeen >= c.suspect && e.at - m.lastSeen < c.fail
  }

  ghost predicate HeldDown(ms: Members, id: string) {
    id in ms && ms[id].state == Failed && ms[id].manualOverride
  }

  /** One step takes a manually failed node out of FAILED exactly when it is another manual transition
      or a failed ping between the timeouts. */
  lemma HeldDownStep(c: Config, ms: Members, e: Event, id: string)
    requires HeldDown(ms, id)
    ensures id in Next(c, ms, e)
    ensures Next(c, ms, e)[id].state != Failed <==>
            e.id == id && (LandsInWindow(c, ms[id], e) || (e.Manual? && e.newState != Failed))
    ensures Next(c, ms, e)[id].state == Failed ==> HeldDown(Next(c, ms, e), id)
  {
  }

  /** Over every run, a manually failed node stays FAILED until one of those two happens. */
  lemma {:induction false} HeldDownRun(c: Config, ms: Members, events: seq<Event>, id: string)
    requires HeldDown(ms, id)
    requires forall i :: 0 <= i < |events| && events[i].id == id && id in Run(c, ms, events[..i]) ==>
      !(events[i].Manual? && events[i].newState != Failed) && !LandsInWindow(c, Run(c, ms, events[..i])[id], events[i])
    ensures HeldDown(Run(c, ms, events), id)
  {
    if events == [] {
    } else {
      var n := |events| - 1;
      var before := events[..n];
      forall i | 0 <= i < n && before[i].id == id && id in Run(c, ms, before[..i])
        ensures !(before[i].Manual? && before[i].newState != Failed)
                && !LandsInWindow(c, Run(c, ms, before[..i])[id], before[i])
      {
        assert before[..i] == events[..i];
      }
      HeldDownRun(c, ms, before, id);
      HeldDownStep(c, Run(c, ms, before), events[n], id);
    }
  }

  /** In particular, no number of successful pings revives it. */
  lemma PingsDoNotRevive(c: Config, ms: Members, events: seq<Event>, id: string)
    requires HeldDown(ms, id)
    requires forall i :: 0 <= i < |events| ==> events[i].Success?
    ensures HeldDown(Run(c, ms, events), id)
  {
  }

  /** Whether the last manual transition to ALIVE or FAILED was to FAILED; `initially` when there was
      none. A manual SUSPECTED does not count. */
  function Forced(initially: bool, events: seq<Event>, id: string): bool {
    if events == [] then
      initially
    else
      var last := events[|events| - 1];
      if last.Manual? && last.id == id && last.newState != Suspected then last.newState == Failed
      else Forced(initially, events[..|events| - 1], id)
  }

  /** Over every run, whatever pings say, the override flag follows the manual transitions alone. */
  lemma {:induction false} OverrideFollowsManual(c: Config, ms: Members, events: seq<Event>, id: string)
    requires id in ms
    ensures id in Run(c, ms, events)
    ensures Run(c, ms, events)[id].manualOverride == Forced(ms[id].manualOverride, events, id)
  {
    if events == [] {
    } else {
      OverrideFollowsManual(c, ms, events[..|events| - 1], id);
    }
  }

  /** After every run, a successful ping lifts FAILED exactly when the last manual transition was not to
      FAILED, even if the node failed on its own since; and any other state it turns into ALIVE. */
  lemma SuccessRevivesIff(c: Config, ms: Members, events: seq<Event>, id: string, at: Time)
    requires id in ms
    ensures id in Run(c, ms, events) && id in Next(c, Run(c, ms, events), Success(id, at))
    ensures Next(c, Run(c, ms, events), Success(id, at))[id].state ==
            if Run(c, ms, events)[id].state == Failed && Forced(ms[id].manualOverride, events, id) then Failed
            else Alive
  {
    OverrideFollowsManual(c, ms, events, id);
  }

  /** A node that failed under a forced mark stays down for any number of successful pings. */
  lemma ForcedStaysDown(c: Config, ms: Members, events: seq<Event>, pings: seq<Event>, id: string)
    requires id in ms && id in Run(c, ms, events)
    requires Run(c, ms, events)[id].state == Failed && Forced(ms[id].manualOverride, events, id)
    requires forall i :: 0 <= i < |pings| ==> pings[i].Success?
    ensures HeldDown(Run(c, Run(c, ms, events), pings), id)
  {
    OverrideFollowsManual(c, ms, events, id);
    PingsDoNotRevive(c, Run(c, ms, events), pings, id);
  }

  /** So a mark outlives the state it was set for: a node marked FAILED that left FAILED through a failed
      ping, came back and failed again on its own is still forced. */
  lemma StaleOverride(c: Config, ms: Members, id: string, reason: string, t0: Time, t1: Time, t2: Time, t3: Time)
    requires id in ms && c.suspect <= t1 - ms[id].lastSeen < c.fail && t3 - t2 >= c.fail
    ensures var held := [Manual(id, Failed, t0)];
            var suspected := held + [Failure(id, reason, t1)];
            var back := suspected + [Success(id, t2)];
            var down := back + [Failure(id, reason, t3)];
            && StateOf(Run(c, ms, suspected), id) == Some(Suspected)
            && StateOf(Run(c, ms, back), id) == Some(Alive)
            && StateOf(Run(c, ms, down), id) == Some(Failed)
            && Forced(ms[id].manualOverride, down, id)
  {
    var held := [Manual(id, Failed, t0)];
    var suspected := held + [Failure(id, reason, t1)];
    var back := suspected + [Success(id, t2)];
    RunSnoc(c, ms, [], Manual(id, Failed, t0));
    RunSnoc(c, ms, held, Failure(id, reason, t1));
    RunSnoc(c, ms, suspected, Success(id, t2));
    RunSnoc(c, ms, back, Failure(id, reason, t3));
    OverrideFollowsManual(c, ms, back + [Failure(id, reason, t3)], id);
  }

  lemma RunSnoc(c: Config, ms: Members, events: seq<Event>, e: Event)
    ensures Run(c, ms, events + [e]) == Next(c, Run(c, ms, events), e)
  {
    assert (events + [e])[..|events|] == events;
  }

  // ---------------------------------------------------------------- the monitor's own node

  /** Pings go to peers only, so the monitor's own node stays as registered unless forced. */
  lemma {:induction false} SelfStaysAlive(c: Config, ms: Members, events: seq<Event>)
    requires c.self in ms && ms[c.self].state == Alive && NoManual(events, c.self)
    requires forall i :: 0 <= i < |events| && (events[i].Success? || events[i].Failure?) ==>
      events[i].id in Run(c, ms, events[..i]).Keys - {c.self}
    ensures c.self in Run(c, ms, events) && Run(c, ms, events)[c.self].state == Alive
  {
    if events == [] {
    } else {
      var n := |events| - 1;
      forall i | 0 <= i < n ensures events[..n][..i] == events[..i] {
      }
      SelfStaysAlive(c, ms, events[..n]);
    }
  }
}
