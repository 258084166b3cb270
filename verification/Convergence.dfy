/** What one key looks like while its last operation drains.

A key's two owners, the messages about the key on their way to them and the gateway requests about
the key form a small system of their own. `Phase` describes it for each kind of last operation, and
one lemma per step shows that the step keeps it. `ConvergenceRuns` lifts this to runs.
*/
module Convergence {
  import opened Base
  import opened Ring
  import opened Cache
  import opened Protocol

  /** The last operation of the gateway on a key. It missed the primary if it was sent to the replica because
      the primary is marked as failed, or if the first post was lost and the fallback went to the replica. */
  datatype Op = NoOp | SetOp(value: string, ttl: int, missed: bool) | DelOp(missed: bool)

  /** What is known of a key's past: the last operation, what the operations that reached the primary left
      there, and what the primary held before the last operation. */
  datatype Past = Past(op: Op, primary: Option<string>, before: Option<string>)

  /** The part of a state that concerns one key. */
  datatype Local = Local(primary: Option<Item>, replica: Option<Item>, net: multiset<Message>,
                         sessions: multiset<Session>)

  /** The two owners of a key. */
  datatype OwnerPair = OwnerPair(p: NodeTarget, r: NodeTarget)

  ghost predicate Owned(o: OwnerPair, k: string, m: Message) {
    KeyOf(m) == k && (m.to.nodeId == o.p.nodeId || m.to.nodeId == o.r.nodeId)
  }

  ghost predicate Proper(o: OwnerPair) {
    o.p.nodeId != o.r.nodeId && o.r.addr != "" && o.p.addr != o.r.addr
  }

  function Replicate(o: OwnerPair, k: string, v: string, version: Version): Message {
    ReplicateMsg(o.r, k, Stored(v), 0, version)
  }

  /** A stored item that cannot expire. */
  predicate Lasting(i: Option<Item>, k: string) {
    i.Some? ==> i.value.key == k && i.value.expiresAt.None?
  }

  predicate Holds(i: Option<Item>, v: string) {
    i.Some? && i.value.value == v
  }

  function ValueOf(i: Option<Item>): Option<string> {
    if i.Some? then Some(i.value.value) else None
  }

  /** The replica's version equals the primary's, or is one ahead once the gateway's own copy is in. */
  predicate InStep(pv: Version, rv: Version, copies: nat) {
    pv != 0 ==> rv == pv || (copies == 0 && rv == (pv + 1) % VERSIONS)
  }

  // ---------------------------------------------------------------- the phases

  /** No operation yet. */
  ghost predicate Untouched(o: OwnerPair, k: string, l: Local) {
    && (forall m :: m in l.net ==> !Owned(o, k, m))
    && (forall y :: y in l.sessions ==> y.key != k)
    && l.primary.None? && l.replica.None?
  }

  function Pending(o: OwnerPair, k: string, v: string, l: Local): nat {
    if l.primary.Some? then l.net[Replicate(o, k, v, l.primary.value.version)] else 0
  }

  function Copies(o: OwnerPair, k: string, v: string, t: int, l: Local): nat {
    l.sessions[SetSession(k, v, t, [o.p, o.r], false)] + l.net[SetMsg(o.r, k, v, t)]
  }

  ghost predicate SettingMail(o: OwnerPair, k: string, v: string, t: int, l: Local) {
    && (forall m :: m in l.net && Owned(o, k, m) ==>
          m == SetMsg(o.p, k, v, t) || m == SetMsg(o.r, k, v, t)
          || (l.primary.Some? && m == Replicate(o, k, v, l.primary.value.version)))
    && (forall y :: y in l.sessions && y.key == k ==> y == SetSession(k, v, t, [o.p, o.r], false))
  }

  /** A set that goes to the primary: the primary passes it on, and the gateway sends a copy. */
  ghost predicate Setting(o: OwnerPair, k: string, v: string, t: int, before: Option<string>, l: Local) {
    var first, pending, copies := l.net[SetMsg(o.p, k, v, t)], Pending(o, k, v, l), Copies(o, k, v, t, l);
    && SettingMail(o, k, v, t, l)
    && first + pending <= 1 && copies <= 1
    && (if first == 0 then Holds(l.primary, Stored(v)) else ValueOf(l.primary) == before)
    && (copies == 0 ==> Holds(l.replica, Stored(v)))
    && (first + pending == 0 ==>
          Holds(l.replica, Stored(v)) && InStep(l.primary.value.version, l.replica.value.version, copies))
  }

  /** A set that misses the primary: it was posted to the replica, or will be when the gateway gives up waiting. */
  ghost predicate Diverting(o: OwnerPair, k: string, v: string, t: int, l: Local) {
    && (forall m :: m in l.net && Owned(o, k, m) ==> m == SetMsg(o.r, k, v, t))
    && (forall y :: y in l.sessions && y.key == k ==>
          y == SetSession(k, v, t, [o.p, o.r], true) || y == SetSession(k, v, t, [o.p, o.r], false))
    && Copies(o, k, v, t, l) <= 1
    && (Copies(o, k, v, t, l) == 0 ==> Holds(l.replica, Stored(v)))
  }

  /** A delete that goes to the primary, which passes it on; a fallback to the replica may be under way. */
  ghost predicate Deleting(o: OwnerPair, k: string, before: Option<string>, l: Local) {
    var first, second, fallback := DeleteMsg(o.p, k), ReplicateDeleteMsg(o.r, k), DeleteMsg(o.r, k);
    && (forall m :: m in l.net && Owned(o, k, m) ==> m == first || m == second || m == fallback)
    && (forall y :: y in l.sessions && y.key == k ==> y == DeleteSession(k, [o.p, o.r]))
    && l.net[first] <= 1
    && (if first in l.net then
          && ValueOf(l.primary) == before && second !in l.net
          && (DeleteSession(k, [o.p, o.r]) !in l.sessions ==> fallback in l.net || l.replica.None?)
        else
          l.primary.None? && (second !in l.net ==> l.replica.None?))
  }

  /** A delete that misses the primary and went to the replica instead. */
  ghost predicate DivertingDelete(o: OwnerPair, k: string, l: Local) {
    && (forall m :: m in l.net && Owned(o, k, m) ==> m == DeleteMsg(o.r, k))
    && (forall y :: y in l.sessions ==> y.key != k)
    && (DeleteMsg(o.r, k) !in l.net ==> l.replica.None?)
  }

  /** What the last operation left behind. */
  ghost predicate Drains(o: OwnerPair, k: string, h: Past, l: Local) {
    match h.op
    case NoOp => Untouched(o, k, l) && h.primary.None?
    case SetOp(v, t, false) => t <= 0 && Setting(o, k, v, t, h.before, l) && h.primary == Some(Stored(v))
    case SetOp(v, t, true) => t <= 0 && Diverting(o, k, v, t, l) && ValueOf(l.primary) == h.primary
    case DelOp(false) => Deleting(o, k, h.before, l) && h.primary.None?
    case DelOp(true) => DivertingDelete(o, k, l) && ValueOf(l.primary) == h.primary
  }

  /** Items of the key do not expire, and other nodes are sent only hot-key copies. */
  ghost predicate Common(o: OwnerPair, k: string, l: Local) {
    && Lasting(l.primary, k) && Lasting(l.replica, k)
    && (forall m :: m in l.net && KeyOf(m) == k && !Owned(o, k, m) ==> m.ReplicateMsg?)
  }

  /** Sets that are still on their way to the primary. */
  function Unsent(o: OwnerPair, k: string, op: Op, l: Local): nat {
    if op.SetOp? && !op.missed then l.net[SetMsg(o.p, k, op.value, op.ttl)] else 0
  }

  /** Sets that are still on their way to the replica. */
  function Uncopied(o: OwnerPair, k: string, op: Op, l: Local): nat {
    if op.SetOp? then Copies(o, k, op.value, op.ttl, l) else 0
  }

  /** Versions count sets, after `n` sets by clients; the replica may be one ahead. */
  ghost predicate Counted(o: OwnerPair, k: string, op: Op, n: nat, l: Local) {
    && (op.SetOp? ==> n > 0)
    && (n < VERSIONS - 1 && l.primary.Some? ==>
          1 <= l.primary.value.version && l.primary.value.version + Unsent(o, k, op, l) <= n)
    && (n < VERSIONS - 1 && l.replica.Some? ==>
          1 <= l.replica.value.version && l.replica.value.version + Uncopied(o, k, op, l) <= n + 1)
  }

  ghost predicate Phase(o: OwnerPair, k: string, h: Past, n: nat, l: Local) {
    Common(o, k, l) && Drains(o, k, h, l) && Counted(o, k, h.op, n, l)
  }

  ghost predicate QuietLocal(o: OwnerPair, k: string, l: Local) {
    && (forall m :: m in l.net ==> !Owned(o, k, m))
    && (forall y :: y in l.sessions ==> y.key != k)
  }

  // ---------------------------------------------------------------- steps that do not concern the key

  /** Two states that agree on everything `Phase` looks at. */
  ghost predicate Alike(o: OwnerPair, k: string, l: Local, l': Local) {
    && l'.primary == l.primary && l'.replica == l.replica
    && (forall m :: Owned(o, k, m) ==> l'.net[m] == l.net[m])
    && (forall m :: m in l'.net && KeyOf(m) == k && !Owned(o, k, m) ==> m.ReplicateMsg?)
    && (forall y: Session :: y.key == k ==> l'.sessions[y] == l.sessions[y])
  }

  lemma AlikeMail(o: OwnerPair, k: string, l: Local, l': Local)
    requires Alike(o, k, l, l')
    ensures forall m :: Owned(o, k, m) ==> (m in l'.net <==> m in l.net)
    ensures forall y: Session :: y.key == k ==> (y in l'.sessions <==> y in l.sessions)
  {
  }

  lemma AlikeCopies(o: OwnerPair, k: string, v: string, t: int, l: Local, l': Local)
    requires Alike(o, k, l, l')
    ensures Copies(o, k, v, t, l') == Copies(o, k, v, t, l)
  {
    assert Owned(o, k, SetMsg(o.r, k, v, t));
  }

  lemma AlikeSetting(o: OwnerPair, k: string, v: string, t: int, before: Option<string>, l: Local, l': Local)
    requires Alike(o, k, l, l') && Setting(o, k, v, t, before, l)
    ensures Setting(o, k, v, t, before, l')
  {
    AlikeMail(o, k, l, l');
    AlikeCopies(o, k, v, t, l, l');
    assert Owned(o, k, SetMsg(o.p, k, v, t));
  }

  lemma AlikeDeleting(o: OwnerPair, k: string, before: Option<string>, l: Local, l': Local)
    requires Alike(o, k, l, l') && Deleting(o, k, before, l)
    ensures Deleting(o, k, before, l')
  {
    AlikeMail(o, k, l, l');
    assert Owned(o, k, DeleteMsg(o.p, k)) && Owned(o, k, ReplicateDeleteMsg(o.r, k)) && Owned(o, k, DeleteMsg(o.r, k));
  }

  lemma AlikePhase(o: OwnerPair, k: string, h: Past, n: nat, l: Local, l': Local)
    requires Alike(o, k, l, l') && Phase(o, k, h, n, l)
    ensures Phase(o, k, h, n, l')
  {
    AlikeMail(o, k, l, l');
    match h.op
    case NoOp =>
    case SetOp(v, t, missed) =>
      AlikeCopies(o, k, v, t, l, l');
      assert Owned(o, k, SetMsg(o.p, k, v, t));
      if !missed {
        AlikeSetting(o, k, v, t, h.before, l, l');
      }
    case DelOp(missed) =>
      assert Owned(o, k, DeleteMsg(o.r, k));
      if !missed {
        AlikeDeleting(o, k, h.before, l, l');
      }
  }

  // ---------------------------------------------------------------- a new operation on a quiet key

  /** What an operation leaves in the simple map. */
  function Left(op: Op): Option<string> {
    if op.SetOp? then Some(Stored(op.value)) else None
  }

  lemma QuietMail(o: OwnerPair, k: string, v: string, t: int, l: Local)
    requires QuietLocal(o, k, l)
    ensures l.net[SetMsg(o.p, k, v, t)] == 0 && Pending(o, k, v, l) == 0 && Copies(o, k, v, t, l) == 0
    ensures DeleteMsg(o.p, k) !in l.net && DeleteMsg(o.r, k) !in l.net && ReplicateDeleteMsg(o.r, k) !in l.net
  {
    assert Owned(o, k, SetMsg(o.p, k, v, t)) && Owned(o, k, SetMsg(o.r, k, v, t));
    assert Owned(o, k, DeleteMsg(o.p, k)) && Owned(o, k, DeleteMsg(o.r, k)) && Owned(o, k, ReplicateDeleteMsg(o.r, k));
    assert SetSession(k, v, t, [o.p, o.r], false) !in l.sessions;
    if l.primary.Some? {
      assert Owned(o, k, Replicate(o, k, v, l.primary.value.version));
    }
  }

  /** The values that the owners hold once everything about the key is delivered. */
  lemma QuietValues(o: OwnerPair, k: string, h: Past, n: nat, l: Local)
    requires Phase(o, k, h, n, l) && QuietLocal(o, k, l)
    ensures ValueOf(l.primary) == h.primary && ValueOf(l.replica) == Left(h.op)
    ensures h.op.SetOp? && !h.op.missed ==> InStep(l.primary.value.version, l.replica.value.version, 0)
  {
    if h.op.SetOp? {
      QuietMail(o, k, h.op.value, h.op.ttl, l);
    } else {
      QuietMail(o, k, "", 0, l);
    }
  }

  lemma QuietVersions(o: OwnerPair, k: string, h: Past, n: nat, l: Local)
    requires Phase(o, k, h, n, l) && QuietLocal(o, k, l)
    requires h.op.SetOp? && !h.op.missed && n < VERSIONS - 1
    ensures Holds(l.primary, Stored(h.op.value)) && Holds(l.replica, Stored(h.op.value))
    ensures 0 <= l.replica.value.version - l.primary.value.version <= 1
    ensures 1 <= l.primary.value.version <= n
  {
    QuietValues(o, k, h, n, l);
  }

  /** Versions at a drained key, whatever the last operation was. */
  ghost predicate WithinCount(n: nat, l: Local) {
    n < VERSIONS - 1 ==>
      && (l.primary.Some? ==> 1 <= l.primary.value.version <= n)
      && (l.replica.Some? ==> 1 <= l.replica.value.version <= n + 1)
  }

  /** The local effect of a request that begins. */
  function Started(l: Local, x: Session): Local {
    l.(sessions := l.sessions + multiset{x}, net := l.net + FirstPost(x))
  }

  lemma CountedLater(o: OwnerPair, k: string, h: Past, n: nat, l: Local)
    requires Phase(o, k, h, n, l) && QuietLocal(o, k, l)
    ensures WithinCount(n, l)
  {
    if h.op.SetOp? {
      QuietMail(o, k, h.op.value, h.op.ttl, l);
    }
  }

  lemma StartSet(o: OwnerPair, k: string, h: Past, n: nat, l: Local, v: string, t: int)
    requires Proper(o) && Phase(o, k, h, n, l) && QuietLocal(o, k, l) && t <= 0
    ensures Phase(o, k, Past(SetOp(v, t, false), Some(Stored(v)), h.primary), n + 1,
                  Started(l, SetSession(k, v, t, [o.p, o.r], false)))
  {
    var x, m := SetSession(k, v, t, [o.p, o.r], false), SetMsg(o.p, k, v, t);
    var l' := Started(l, x);
    QuietValues(o, k, h, n, l);
    CountedLater(o, k, h, n, l);
    QuietMail(o, k, v, t, l);
    assert l'.net == l.net + multiset{m};
    assert l'.net[m] == 1 && Pending(o, k, v, l') == 0 && Copies(o, k, v, t, l') == 1;
    assert SettingMail(o, k, v, t, l');
  }

  lemma StartDivertedSet(o: OwnerPair, k: string, h: Past, n: nat, l: Local, v: string, t: int)
    requires Proper(o) && Phase(o, k, h, n, l) && QuietLocal(o, k, l) && t <= 0
    ensures Phase(o, k, Past(SetOp(v, t, true), h.primary, h.primary), n + 1,
                  Started(l, SetSession(k, v, t, [o.p, o.r], true)))
  {
    QuietValues(o, k, h, n, l);
    CountedLater(o, k, h, n, l);
    QuietMail(o, k, v, t, l);
    var l' := Started(l, SetSession(k, v, t, [o.p, o.r], true));
    assert l'.net == l.net + multiset{SetMsg(o.r, k, v, t)};
    assert Copies(o, k, v, t, l') == 1;
  }

  lemma StartDelete(o: OwnerPair, k: string, h: Past, n: nat, l: Local)
    requires Proper(o) && Phase(o, k, h, n, l) && QuietLocal(o, k, l)
    ensures Phase(o, k, Past(DelOp(false), None, h.primary), n, Started(l, DeleteSession(k, [o.p, o.r])))
  {
    QuietValues(o, k, h, n, l);
    CountedLater(o, k, h, n, l);
    QuietMail(o, k, "", 0, l);
    var l' := Started(l, DeleteSession(k, [o.p, o.r]));
    assert l'.net == l.net + multiset{DeleteMsg(o.p, k)};
  }

  // ---------------------------------------------------------------- the end of the first post

  /** A request of this key ends with an answer or an error. */
  function Answered(l: Local, x: Session, sends: multiset<Message>): Local {
    l.(sessions := l.sessions - multiset{x}, net := l.net + sends)
  }

  lemma SetEnds(o: OwnerPair, k: string, v: string, t: int, x: Session)
    requires Proper(o) && (x == SetSession(k, v, t, [o.p, o.r], false) || x == SetSession(k, v, t, [o.p, o.r], true))
    ensures AfterError(x) == AfterOk(x)
    ensures AfterOk(x) == if x.diverted then multiset{} else multiset{SetMsg(o.r, k, v, t)}
  {
  }

  /** For a set, an error has the same effect as an answer: the replica gets the set from the gateway. */
  lemma EndSetting(o: OwnerPair, k: string, h: Past, n: nat, l: Local, x: Session)
    requires Proper(o) && Phase(o, k, h, n, l) && x in l.sessions && x.key == k && h.op.SetOp? && !h.op.missed
    ensures Phase(o, k, h, n, Answered(l, x, AfterOk(x))) && AfterError(x) == AfterOk(x)
  {
    var v, t, l' := h.op.value, h.op.ttl, Answered(l, x, AfterOk(x));
    SetEnds(o, k, v, t, x);
    assert Copies(o, k, v, t, l') == Copies(o, k, v, t, l);
    assert Pending(o, k, v, l') == Pending(o, k, v, l);
    assert SettingMail(o, k, v, t, l');
  }

  lemma EndDiverting(o: OwnerPair, k: string, h: Past, n: nat, l: Local, x: Session)
    requires Proper(o) && Phase(o, k, h, n, l) && x in l.sessions && x.key == k && h.op.SetOp? && h.op.missed
    ensures Phase(o, k, h, n, Answered(l, x, AfterOk(x))) && AfterError(x) == AfterOk(x)
  {
    var v, t, l' := h.op.value, h.op.ttl, Answered(l, x, AfterOk(x));
    SetEnds(o, k, v, t, x);
    assert Copies(o, k, v, t, l') == Copies(o, k, v, t, l);
  }

  /** A delete is answered only after the primary has taken it; an error makes the gateway turn to the replica. */
  lemma EndDeleting(o: OwnerPair, k: string, h: Past, n: nat, l: Local, x: Session)
    requires Proper(o) && Phase(o, k, h, n, l) && x in l.sessions && x.key == k && h.op == DelOp(false)
    ensures DeleteMsg(o.p, k) !in l.net ==> Phase(o, k, h, n, Answered(l, x, AfterOk(x)))
    ensures Phase(o, k, h, n, Answered(l, x, AfterError(x)))
  {
    assert AfterOk(x) == multiset{} && AfterError(x) == multiset{DeleteMsg(o.r, k)};
  }

  // ---------------------------------------------------------------- the loss of the first post

  function Without(l: Local, m: Message): Local {
    l.(net := l.net - multiset{m})
  }

  lemma LoseSet(o: OwnerPair, k: string, h: Past, n: nat, l: Local)
    requires Proper(o) && Phase(o, k, h, n, l) && h.op.SetOp? && !h.op.missed
    requires SetMsg(o.p, k, h.op.value, h.op.ttl) in l.net
    ensures Phase(o, k, Past(h.op.(missed := true), h.before, h.before), n,
                  Without(l, SetMsg(o.p, k, h.op.value, h.op.ttl)))
  {
    var v, t := h.op.value, h.op.ttl;
    var l' := Without(l, SetMsg(o.p, k, v, t));
    assert l.net[SetMsg(o.p, k, v, t)] == 1 && Pending(o, k, v, l) == 0;
    assert Copies(o, k, v, t, l') == Copies(o, k, v, t, l);
    assert forall m :: m in l'.net && Owned(o, k, m) ==> m == SetMsg(o.r, k, v, t);
  }

  lemma LoseDelete(o: OwnerPair, k: string, h: Past, n: nat, l: Local)
    requires Proper(o) && Phase(o, k, h, n, l) && h.op == DelOp(false)
    requires DeleteMsg(o.p, k) in l.net && DeleteSession(k, [o.p, o.r]) !in l.sessions
    ensures Phase(o, k, Past(DelOp(true), h.before, h.before), n, Without(l, DeleteMsg(o.p, k)))
  {
  }

  // ---------------------------------------------------------------- deliveries

  function Fresh(i: Option<Item>): Version {
    if i.Some? then (i.value.version + 1) % VERSIONS else 1
  }

  /** What a node stores for a set without version. */
  predicate StoredSet(before: Option<Item>, k: string, v: string, after: Option<Item>) {
    Lasting(after, k) && Holds(after, Stored(v)) && after.value.version == Fresh(before)
  }

  lemma PrimaryTakesSet(o: OwnerPair, k: string, h: Past, n: nat, l: Local, i: Option<Item>, l': Local)
    requires Proper(o) && Phase(o, k, h, n, l) && h.op.SetOp? && !h.op.missed
    requires SetMsg(o.p, k, h.op.value, h.op.ttl) in l.net && StoredSet(l.primary, k, h.op.value, i)
    requires l' == l.(primary := i, net := l.net - multiset{SetMsg(o.p, k, h.op.value, h.op.ttl)}
                                           + multiset{Replicate(o, k, h.op.value, i.value.version)})
    ensures Phase(o, k, h, n, l')
  {
    var v, t := h.op.value, h.op.ttl;
    var first, next := SetMsg(o.p, k, v, t), Replicate(o, k, v, i.value.version);
    assert l.net[first] == 1 && Pending(o, k, v, l) == 0;
    assert next !in l.net by { assert Owned(o, k, next); }
    assert l'.net[first] == 0 && Pending(o, k, v, l') == 1;
    assert Copies(o, k, v, t, l') == Copies(o, k, v, t, l);
    assert SettingMail(o, k, v, t, l') by {
      if l.primary.Some? {
        assert Replicate(o, k, v, l.primary.value.version) !in l.net;
      }
    }
  }

  /** A replicate message carries the primary's version. */
  predicate StoredReplica(before: Option<Item>, k: string, v: string, version: Version, after: Option<Item>) {
    Lasting(after, k) && Holds(after, Stored(v))
      && after.value.version == (if version != 0 then version else Fresh(before))
  }

  lemma ReplicaTakesReplicate(o: OwnerPair, k: string, h: Past, n: nat, l: Local, i: Option<Item>, l': Local)
    requires Proper(o) && Phase(o, k, h, n, l) && h.op.SetOp? && !h.op.missed && l.primary.Some?
    requires Replicate(o, k, h.op.value, l.primary.value.version) in l.net
    requires StoredReplica(l.replica, k, h.op.value, l.primary.value.version, i)
    requires l' == l.(replica := i, net := l.net - multiset{Replicate(o, k, h.op.value, l.primary.value.version)})
    ensures Phase(o, k, h, n, l')
  {
    var v, t := h.op.value, h.op.ttl;
    assert l'.net[SetMsg(o.p, k, v, t)] == l.net[SetMsg(o.p, k, v, t)] == 0;
    assert Pending(o, k, v, l') == 0 && Copies(o, k, v, t, l') == Copies(o, k, v, t, l);
  }

  lemma CopyTaken(o: OwnerPair, k: string, v: string, t: int, l: Local, i: Option<Item>, l': Local)
    requires Proper(o) && SettingMail(o, k, v, t, l) && Copies(o, k, v, t, l) <= 1 && SetMsg(o.r, k, v, t) in l.net
    requires l' == l.(replica := i, net := l.net - multiset{SetMsg(o.r, k, v, t)})
    ensures SettingMail(o, k, v, t, l') && Copies(o, k, v, t, l) == 1 && Copies(o, k, v, t, l') == 0
    ensures l'.net[SetMsg(o.p, k, v, t)] == l.net[SetMsg(o.p, k, v, t)] && Pending(o, k, v, l') == Pending(o, k, v, l)
  {
  }

  lemma ReplicaTakesCopy(o: OwnerPair, k: string, h: Past, n: nat, l: Local, i: Option<Item>, l': Local)
    requires Proper(o) && Phase(o, k, h, n, l) && h.op.SetOp? && !h.op.missed
    requires SetMsg(o.r, k, h.op.value, h.op.ttl) in l.net && StoredSet(l.replica, k, h.op.value, i)
    requires l' == l.(replica := i, net := l.net - multiset{SetMsg(o.r, k, h.op.value, h.op.ttl)})
    ensures Phase(o, k, h, n, l')
  {
    CopyTaken(o, k, h.op.value, h.op.ttl, l, i, l');
  }

  lemma ReplicaTakesDivertedSet(o: OwnerPair, k: string, h: Past, n: nat, l: Local, i: Option<Item>, l': Local)
    requires Proper(o) && Phase(o, k, h, n, l) && h.op.SetOp? && h.op.missed
    requires SetMsg(o.r, k, h.op.value, h.op.ttl) in l.net && StoredSet(l.replica, k, h.op.value, i)
    requires l' == l.(replica := i, net := l.net - multiset{SetMsg(o.r, k, h.op.value, h.op.ttl)})
    ensures Phase(o, k, h, n, l')
  {
    assert Copies(o, k, h.op.value, h.op.ttl, l) == 1 && Copies(o, k, h.op.value, h.op.ttl, l') == 0;
  }

  lemma PrimaryTakesDelete(o: OwnerPair, k: string, h: Past, n: nat, l: Local, l': Local)
    requires Proper(o) && Phase(o, k, h, n, l) && h.op == DelOp(false) && DeleteMsg(o.p, k) in l.net
    requires l' == l.(primary := None,
                      net := l.net - multiset{DeleteMsg(o.p, k)} + multiset{ReplicateDeleteMsg(o.r, k)})
    ensures Phase(o, k, h, n, l')
  {
  }

  /** The replica takes a delete, from the primary or from the gateway. */
  lemma ReplicaTakesDelete(o: OwnerPair, k: string, h: Past, n: nat, l: Local, m: Message, l': Local)
    requires Proper(o) && Phase(o, k, h, n, l) && h.op.DelOp? && m in l.net
    requires m == ReplicateDeleteMsg(o.r, k) || m == DeleteMsg(o.r, k)
    requires l' == l.(replica := None, net := l.net - multiset{m})
    ensures Phase(o, k, h, n, l')
  {
  }
}
