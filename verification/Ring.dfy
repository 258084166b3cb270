/** The consistent hash ring with virtual nodes.

The pure part of this module says what one membership change does to the ring and what one
lookup returns. The class `HashRing` at the end has the fields and the loops of the program
and is proved equal to the pure part, call by call.
*/
module Ring {

  // ---------------------------------------------------------------- data model

  const TOKEN_SPACE: nat := 0x1_0000_0000

  /** A position on the ring; `HashOf` yields values of 32 bits only. */
  type Token = int

  /** The digest stays uninterpreted: every statement holds for an arbitrary function. */
  datatype Params = Params(digest: string -> int, vnodes: nat)

  /** The digest truncated to an unsigned 32-bit value. */
  function HashOf(p: Params, s: string): (t: Token)
    ensures 0 <= t < TOKEN_SPACE
  {
    p.digest(s) % TOKEN_SPACE
  }

  datatype NodeTarget = NodeTarget(nodeId: string, addr: string)

  datatype Lookup<+T> = Found(value: T) | NoNodesInRing

  /** `owner` is the token-to-node map, `addrs` the node addresses, `nodes` the members. */
  datatype RingState = RingState(
    tokens: seq<Token>, owner: map<Token, string>, addrs: map<string, string>, nodes: set<string>)

  const EMPTY_RING: RingState := RingState([], map[], map[], {})

  // ---------------------------------------------------------------- virtual nodes

  function Itoa(n: nat): string {
    if n < 10 then ["0123456789"[n]] else Itoa(n / 10) + ["0123456789"[n % 10]]
  }

  /** The name of a virtual node, of which the ring takes the hash. */
  function VnodeName(id: string, i: nat): string {
    id + "#vnode:" + Itoa(i)
  }

  function VnodeToken(p: Params, id: string, i: nat): Token {
    HashOf(p, VnodeName(id, i))
  }

  /** No two virtual nodes of the given physical nodes hash to the same token. */
  ghost predicate CollisionFree(p: Params, ids: set<string>) {
    forall a, b, i: nat, j: nat ::
      a in ids && b in ids && i < p.vnodes && j < p.vnodes && VnodeToken(p, a, i) == VnodeToken(p, b, j) ==>
        a == b && i == j
  }

  // ---------------------------------------------------------------- sorting tokens

  ghost predicate Sorted(s: seq<Token>) {
    forall i, j :: 0 <= i < j < |s| ==> s[i] <= s[j]
  }

  ghost predicate StrictlySorted(s: seq<Token>) {
    forall i, j :: 0 <= i < j < |s| ==> s[i] < s[j]
  }

  function InsertToken(x: Token, s: seq<Token>): (r: seq<Token>)
    ensures multiset(r) == multiset(s) + multiset{x}
    ensures |r| == |s| + 1
  {
    if s == [] || x <= s[0] then
      [x] + s
    else
      assert s == [s[0]] + s[1..];
      [s[0]] + InsertToken(x, s[1..])
  }

  lemma ConsSorted(x: Token, s: seq<Token>)
    requires Sorted(s)
    requires forall t :: t in s ==> x <= t
    ensures Sorted([x] + s)
  {
    var r := [x] + s;
    forall i, j | 0 <= i < j < |r| ensures r[i] <= r[j] {
      assert r[j] == s[j - 1] && s[j - 1] in s;
    }
  }

  lemma {:induction false} InsertTokenSorted(x: Token, s: seq<Token>)
    requires Sorted(s)
    ensures Sorted(InsertToken(x, s))
  {
    if s == [] || x <= s[0] {
    } else {
      InsertTokenSorted(x, s[1..]);
      var r := InsertToken(x, s[1..]);
      forall t | t in r ensures s[0] <= t {
        assert t in multiset(r);
        assert t == x || t in s[1..];
      }
      ConsSorted(s[0], r);
    }
  }

  function SortTokens(s: seq<Token>): (r: seq<Token>)
    ensures multiset(r) == multiset(s)
    ensures |r| == |s|
    ensures Sorted(r)
  {
    if s == [] then
      []
    else
      assert s == s[..|s| - 1] + [s[|s| - 1]];
      var r := SortTokens(s[..|s| - 1]);
      InsertTokenSorted(s[|s| - 1], r);
      InsertToken(s[|s| - 1], r)
  }

  // ---------------------------------------------------------------- membership changes

  /** Reading a map entry that is missing yields the empty string. */
  function OwnerOf(owner: map<Token, string>, t: Token): string {
    if t in owner then owner[t] else ""
  }

  function AddrOf(addrs: map<string, string>, id: string): string {
    if id in addrs then addrs[id] else ""
  }

  function VnodeTokens(p: Params, id: string, n: nat): (r: seq<Token>)
    ensures |r| == n
    ensures forall i :: 0 <= i < n ==> r[i] == VnodeToken(p, id, i)
  {
    seq(n, (i: nat) => VnodeToken(p, id, i))
  }

  lemma PlacedNext(p: Params, before: seq<Token>, id: string, n: nat)
    ensures before + VnodeTokens(p, id, n) + [VnodeToken(p, id, n)] == before + VnodeTokens(p, id, n + 1)
  {
  }

  function Claim(p: Params, id: string, n: nat, owner: map<Token, string>): map<Token, string> {
    if n == 0 then owner else Claim(p, id, n - 1, owner)[VnodeToken(p, id, n - 1) := id]
  }

  /** The removal loop after it has visited all of `tokens`: the tokens kept, and the owner map. A
      token is dropped, and its map entry deleted, when the entry names `id` at that moment. */
  function Sweep(tokens: seq<Token>, owner: map<Token, string>, id: string): (seq<Token>, map<Token, string>) {
    if tokens == [] then
      ([], owner)
    else
      var (kept, o) := Sweep(tokens[..|tokens| - 1], owner, id);
      var t := tokens[|tokens| - 1];
      if OwnerOf(o, t) == id then (kept, o - {t}) else (kept + [t], o)
  }

  function Remove(r: RingState, id: string): RingState {
    if id !in r.nodes then
      r
    else
      var (tokens, owner) := Sweep(r.tokens, r.owner, id);
      RingState(tokens, owner, r.addrs - {id}, r.nodes - {id})
  }

  /** A node registered under its own address is a placeholder for the real ID. */
  predicate IsPlaceholder(r: RingState, id: string, addr: string) {
    id != addr && addr in r.nodes
  }

  function DropPlaceholder(r: RingState, id: string, addr: string): RingState {
    if IsPlaceholder(r, id, addr) then Remove(r, addr) else r
  }

  function Add(p: Params, r0: RingState, id: string, addr: string): RingState {
    var r := DropPlaceholder(r0, id, addr);
    if id in r.nodes then
      r.(addrs := r.addrs[id := addr])
    else
      Extend(p, r, id, addr)
  }

  // ---------------------------------------------------------------- lookup

  /** The first index whose token is at least `k`, or the length. */
  function LowerBound(s: seq<Token>, k: Token): (i: nat)
    ensures i <= |s|
    ensures forall j :: 0 <= j < i ==> s[j] < k
    ensures i < |s| ==> s[i] >= k
  {
    if s == [] || s[0] >= k then 0 else 1 + LowerBound(s[1..], k)
  }

  lemma {:induction false} LowerBoundUnique(s: seq<Token>, k: Token, i: nat)
    requires i <= |s|
    requires forall j :: 0 <= j < i ==> s[j] < k
    requires i < |s| ==> s[i] >= k
    ensures i == LowerBound(s, k)
  {
  }

  function StartIndex(s: seq<Token>, k: Token): (i: nat)
    ensures s != [] ==> i < |s|
    ensures s == [] ==> i == 0
  {
    if LowerBound(s, k) == |s| then 0 else LowerBound(s, k)
  }

  function Wrap(i: nat, n: nat): nat {
    if i < n then i else if i - n < n then i - n else 0
  }

  lemma WrapIsModulo(i: nat, n: nat)
    requires i < 2 * n
    ensures i % n == Wrap(i, n)
  {
  }

  /** The token at position `i`, counting on past the end of the array. */
  function Around(s: seq<Token>, i: nat): (t: Token)
    requires i < 2 * |s|
    ensures t == s[Wrap(i, |s|)]
  {
    WrapIsModulo(i, |s|);
    s[i % |s|]
  }

  /** The whole ring, once around clockwise, beginning at the key. */
  function Rotated(s: seq<Token>, k: Token): (r: seq<Token>)
    ensures |r| == |s|
    ensures forall i :: 0 <= i < |s| ==> r[i] == s[Wrap(StartIndex(s, k) + i, |s|)]
  {
    var i := StartIndex(s, k);
    s[i..] + s[..i]
  }

  function Owners(owner: map<Token, string>, s: seq<Token>): (r: seq<string>)
    ensures |r| == |s|
    ensures forall i :: 0 <= i < |s| ==> r[i] == OwnerOf(owner, s[i])
  {
    seq(|s|, i requires 0 <= i < |s| => OwnerOf(owner, s[i]))
  }

  /** Each value once, in order of first occurrence. */
  function FirstSeen(s: seq<string>): (r: seq<string>)
    ensures |r| <= |s|
    ensures forall x :: x in r <==> x in s
  {
    if s == [] then
      []
    else
      assert s == s[..|s| - 1] + [s[|s| - 1]];
      var r := FirstSeen(s[..|s| - 1]);
      var x := s[|s| - 1];
      if x in r then r else r + [x]
  }

  function Take<T>(s: seq<T>, n: nat): (r: seq<T>)
    ensures |r| == if |s| < n then |s| else n
    ensures r <= s
  {
    if |s| <= n then s else s[..n]
  }

  /** Every member, in the order in which the walk from `key` meets it. */
  function Preference(p: Params, r: RingState, key: string): seq<string> {
    FirstSeen(Owners(r.owner, Rotated(r.tokens, HashOf(p, key))))
  }

  function NodeIds(p: Params, r: RingState, key: string, count: nat): seq<string> {
    Take(Preference(p, r, key), count)
  }

  function Target(r: RingState, id: string): NodeTarget {
    NodeTarget(id, AddrOf(r.addrs, id))
  }

  function Targets(r: RingState, ids: seq<string>): (t: seq<NodeTarget>)
    ensures |t| == |ids|
    ensures forall i :: 0 <= i < |ids| ==> t[i] == Target(r, ids[i])
  {
    seq(|ids|, i requires 0 <= i < |ids| => Target(r, ids[i]))
  }

  function NodesFor(p: Params, r: RingState, key: string, count: nat): Lookup<seq<NodeTarget>> {
    if r.tokens == [] then NoNodesInRing else Found(Targets(r, NodeIds(p, r, key, count)))
  }

  function TargetsIn(lookup: Lookup<seq<NodeTarget>>): seq<NodeTarget> {
    match lookup
    case Found(targets) => targets
    case NoNodesInRing => []
  }

  // ---------------------------------------------------------------- invariant for every hash

  predicate IsVnodeOf(p: Params, id: string, t: Token) {
    exists i :: 0 <= i < p.vnodes && t == VnodeToken(p, id, i)
  }

  /** No stale owner: each entry names a member and one of that member's own tokens. */
  ghost predicate OwnersCurrent(p: Params, r: RingState) {
    forall t :: t in r.owner ==> t in r.tokens && r.owner[t] in r.nodes && IsVnodeOf(p, r.owner[t], t)
  }

  ghost predicate LongEnough(p: Params, tokenCount: nat, nodeCount: nat) {
    tokenCount >= p.vnodes * nodeCount
  }

  /** What holds of every reachable ring, whatever the hash does. */
  ghost predicate Inv(p: Params, r: RingState) {
    && "" !in r.nodes
    && Sorted(r.tokens)
    && OwnersCurrent(p, r)
    && LongEnough(p, |r.tokens|, |r.nodes|)
    && r.addrs.Keys == r.nodes
  }

  lemma LongEnoughStep(p: Params, n: nat, m: nat)
    ensures LongEnough(p, n + p.vnodes, m + 1) <==> LongEnough(p, n, m)
  {
  }

  /** The tokens that the removal loop drops. */
  ghost function Dropped(tokens: seq<Token>, owner: map<Token, string>, id: string): set<Token> {
    if tokens == [] then
      {}
    else
      var rest, t := tokens[..|tokens| - 1], tokens[|tokens| - 1];
      Dropped(rest, owner, id) + if OwnerOf(Sweep(rest, owner, id).1, t) == id then {t} else {}
  }

  lemma {:induction false} DroppedFacts(tokens: seq<Token>, owner: map<Token, string>, id: string)
    requires id != ""
    ensures |Dropped(tokens, owner, id)| == |tokens| - |Sweep(tokens, owner, id).0|
    ensures forall t :: t in Dropped(tokens, owner, id) ==>
      t !in Sweep(tokens, owner, id).1 && t in owner && owner[t] == id
    ensures forall t :: t in Sweep(tokens, owner, id).1 ==> t in owner && Sweep(tokens, owner, id).1[t] == owner[t]
  {
    if tokens == [] {
    } else {
      DroppedFacts(tokens[..|tokens| - 1], owner, id);
    }
  }

  /** The removal loop, described without the loop. */
  lemma {:induction false} SweepFacts(tokens: seq<Token>, owner: map<Token, string>, id: string)
    requires id != ""
    ensures var (kept, o) := Sweep(tokens, owner, id);
            && (forall t :: t in o <==> t in owner && !(owner[t] == id && t in tokens))
            && (forall t :: t in o ==> o[t] == owner[t])
            && (forall t :: t in kept ==> t in tokens)
            && (forall t :: t in tokens && OwnerOf(owner, t) != id ==> t in kept)
  {
    if tokens == [] {
    } else {
      var rest, t := tokens[..|tokens| - 1], tokens[|tokens| - 1];
      assert tokens == rest + [t];
      SweepFacts(rest, owner, id);
    }
  }

  lemma SnocSorted(s: seq<Token>, x: Token)
    requires Sorted(s)
    requires forall t :: t in s ==> t <= x
    ensures Sorted(s + [x])
    ensures StrictlySorted(s) && x !in s ==> StrictlySorted(s + [x])
  {
    var r := s + [x];
    forall i, j | 0 <= i < j < |r| ensures r[i] <= r[j] && (StrictlySorted(s) && x !in s ==> r[i] < r[j]) {
      assert r[i] == s[i] && s[i] in s;
    }
  }

  /** The kept tokens are a subsequence, so their order survives. */
  lemma {:induction false} SweepSorted(tokens: seq<Token>, owner: map<Token, string>, id: string)
    requires Sorted(tokens)
    ensures Sorted(Sweep(tokens, owner, id).0)
    ensures StrictlySorted(tokens) ==> StrictlySorted(Sweep(tokens, owner, id).0)
    ensures forall t :: t in Sweep(tokens, owner, id).0 ==> t in tokens
  {
    if tokens == [] {
    } else {
      var rest, t := tokens[..|tokens| - 1], tokens[|tokens| - 1];
      SweepSorted(rest, owner, id);
      forall x | x in rest ensures x <= t && (StrictlySorted(tokens) ==> x < t) {
        var i :| 0 <= i < |rest| && rest[i] == x;
        assert tokens[i] == x;
      }
      SnocSorted(Sweep(rest, owner, id).0, t);
    }
  }

  function VnodeSet(p: Params, id: string, n: nat): (s: set<Token>)
    ensures |s| <= n
    ensures forall i :: 0 <= i < n ==> VnodeToken(p, id, i) in s
  {
    if n == 0 then {} else VnodeSet(p, id, n - 1) + {VnodeToken(p, id, n - 1)}
  }

  lemma SubsetSize<T>(a: set<T>, b: set<T>)
    requires a <= b
    ensures |a| <= |b|
  {
    assert b == a + (b - a);
  }

  /** Removal takes away at most one token per virtual node, even when tokens collide. */
  lemma RemovalIsBounded(p: Params, r: RingState, id: string)
    requires OwnersCurrent(p, r) && id != ""
    ensures |Sweep(r.tokens, r.owner, id).0| >= |r.tokens| - p.vnodes
  {
    DroppedFacts(r.tokens, r.owner, id);
    forall t | t in Dropped(r.tokens, r.owner, id) ensures t in VnodeSet(p, id, p.vnodes) {
      assert IsVnodeOf(p, r.owner[t], t);
    }
    SubsetSize(Dropped(r.tokens, r.owner, id), VnodeSet(p, id, p.vnodes));
  }

  lemma RemoveKeepsOwners(p: Params, r: RingState, id: string)
    requires OwnersCurrent(p, r) && id in r.nodes && id != ""
    ensures OwnersCurrent(p, Remove(r, id))
  {
    SweepFacts(r.tokens, r.owner, id);
    var r' := Remove(r, id);
    forall t | t in r'.owner ensures t in r'.tokens && r'.owner[t] in r'.nodes && IsVnodeOf(p, r'.owner[t], t) {
      assert t in r.owner && r'.owner[t] == r.owner[t];
    }
  }

  lemma RemoveKeepsInv(p: Params, r: RingState, id: string)
    requires Inv(p, r)
    ensures Inv(p, Remove(r, id))
  {
    if id in r.nodes {
      RemoveKeepsOwners(p, r, id);
      SweepSorted(r.tokens, r.owner, id);
      var r' := Remove(r, id);
      assert |r.nodes| == |r'.nodes| + 1;
      assert LongEnough(p, |r'.tokens|, |r'.nodes|) by {
        RemovalIsBounded(p, r, id);
        LongEnoughStep(p, |r'.tokens|, |r'.nodes|);
      }
    }
  }

  lemma {:induction false} ClaimNames(p: Params, id: string, n: nat, owner: map<Token, string>, i: nat)
    requires i < n
    ensures var t := VnodeToken(p, id, i); t in Claim(p, id, n, owner) && Claim(p, id, n, owner)[t] == id
  {
    if i == n - 1 {
    } else {
      ClaimNames(p, id, n - 1, owner, i);
    }
  }

  lemma {:induction false} ClaimKeepsTokens(p: Params, id: string, n: nat, owner: map<Token, string>)
    ensures owner.Keys <= Claim(p, id, n, owner).Keys
  {
    if n == 0 {
    } else {
      ClaimKeepsTokens(p, id, n - 1, owner);
    }
  }

  lemma ClaimFacts(p: Params, id: string, n: nat, owner: map<Token, string>)
    ensures var o := Claim(p, id, n, owner);
            && (forall i :: 0 <= i < n ==> VnodeToken(p, id, i) in o && o[VnodeToken(p, id, i)] == id)
            && (forall t :: t in owner ==> t in o)
  {
    var o := Claim(p, id, n, owner);
    forall i | 0 <= i < n ensures VnodeToken(p, id, i) in o && o[VnodeToken(p, id, i)] == id {
      ClaimNames(p, id, n, owner, i);
    }
    ClaimKeepsTokens(p, id, n, owner);
  }

  /** Every entry is either new and named `id`, or as it was. */
  lemma {:induction false} ClaimOrigin(p: Params, id: string, n: nat, owner: map<Token, string>, t: Token)
    requires t in Claim(p, id, n, owner)
    ensures var v := Claim(p, id, n, owner)[t];
            || (v == id && exists i :: 0 <= i < n && t == VnodeToken(p, id, i))
            || (t in owner && v == owner[t])
  {
    if n > 0 && t != VnodeToken(p, id, n - 1) {
      ClaimOrigin(p, id, n - 1, owner, t);
    }
  }

  lemma SortMembers(s: seq<Token>)
    ensures forall t :: t in SortTokens(s) <==> t in s
  {
    assert forall t :: t in SortTokens(s) <==> t in multiset(SortTokens(s));
    assert forall t :: t in s <==> t in multiset(s);
  }

  /** Registering a new member on a ring that does not have it. */
  function Extend(p: Params, r: RingState, id: string, addr: string): RingState {
    RingState(SortTokens(r.tokens + VnodeTokens(p, id, p.vnodes)),
              Claim(p, id, p.vnodes, r.owner), r.addrs[id := addr], r.nodes + {id})
  }

  lemma ExtendKeepsOwners(p: Params, r: RingState, id: string, addr: string)
    requires OwnersCurrent(p, r)
    ensures OwnersCurrent(p, Extend(p, r, id, addr))
  {
    var r', added := Extend(p, r, id, addr), VnodeTokens(p, id, p.vnodes);
    SortMembers(r.tokens + added);
    forall t | t in r'.owner
      ensures t in r'.tokens && r'.owner[t] in r'.nodes && IsVnodeOf(p, r'.owner[t], t)
    {
      ClaimOrigin(p, id, p.vnodes, r.owner, t);
      if r'.owner[t] == id && IsVnodeOf(p, id, t) {
        var i :| 0 <= i < p.vnodes && t == VnodeToken(p, id, i);
        assert added[i] == t;
      }
    }
  }

  lemma LongerEnough(p: Params, n: nat, m: nat, n': nat, m': nat)
    requires LongEnough(p, n, m) && n' == n + p.vnodes && m' == m + 1
    ensures LongEnough(p, n', m')
  {
    LongEnoughStep(p, n, m);
  }

  lemma ExtendGrows(p: Params, r: RingState, id: string, addr: string)
    requires id !in r.nodes
    ensures var r' := Extend(p, r, id, addr);
            && |r'.nodes| == |r.nodes| + 1 && |r'.tokens| == |r.tokens| + p.vnodes && Sorted(r'.tokens)
            && r'.addrs.Keys == r.addrs.Keys + {id}
  {
  }

  lemma ExtendKeepsInv(p: Params, r: RingState, id: string, addr: string)
    requires Inv(p, r) && id != "" && id !in r.nodes
    ensures Inv(p, Extend(p, r, id, addr))
  {
    var r' := Extend(p, r, id, addr);
    ExtendKeepsOwners(p, r, id, addr);
    ExtendGrows(p, r, id, addr);
    LongerEnough(p, |r.tokens|, |r.nodes|, |r'.tokens|, |r'.nodes|);
  }

  lemma AddKeepsInv(p: Params, r0: RingState, id: string, addr: string)
    requires Inv(p, r0) && id != ""
    ensures Inv(p, Add(p, r0, id, addr))
  {
    RemoveKeepsInv(p, r0, addr);
    var r := DropPlaceholder(r0, id, addr);
    if id !in r.nodes {
      ExtendKeepsInv(p, r, id, addr);
    } else {
      assert OwnersCurrent(p, r.(addrs := r.addrs[id := addr]));
    }
  }

  // ---------------------------------------------------------------- the ring as the program keeps it

  class HashRing {
    const vnodes: nat
    const digest: string -> int
    var ring: seq<Token>
    var vnodeToNode: map<Token, string>
    var nodeAddresses: map<string, string>
    var nodes: set<string>

    ghost function P(): Params {
      Params(digest, vnodes)
    }

    ghost function View(): RingState
      reads this
    {
      RingState(ring, vnodeToNode, nodeAddresses, nodes)
    }

    ghost predicate Valid()
      reads this
    {
      vnodes > 0 && Inv(P(), View())
    }

    constructor (vnodeCount: int, hashFunc: string -> int)
      ensures Valid()
      ensures View() == EMPTY_RING
      ensures P() == Params(hashFunc, if vnodeCount <= 0 then 50 else vnodeCount)
    {
      vnodes := if vnodeCount <= 0 then 50 else vnodeCount;
      digest := hashFunc;
      ring := [];
      vnodeToNode := map[];
      nodeAddresses := map[];
      nodes := {};
    }

    method AddNode(nodeId: string, addr: string)
      requires Valid() && nodeId != ""
      modifies this
      ensures Valid()
      ensures View() == Add(P(), old(View()), nodeId, addr)
    {
      if nodeId != addr && addr in nodes {
        InternalRemoveNode(addr);
      }
      if nodeId in nodes {
        nodeAddresses := nodeAddresses[nodeId := addr];
        return;
      }
      Register(nodeId, addr);
    }

    method Register(nodeId: string, addr: string)
      requires Valid() && nodeId != "" && nodeId !in nodes
      modifies this
      ensures Valid()
      ensures View() == Extend(P(), old(View()), nodeId, addr)
    {
      ghost var p, r := P(), View();
      ExtendKeepsInv(p, r, nodeId, addr);
      nodes := nodes + {nodeId};
      nodeAddresses := nodeAddresses[nodeId := addr];
      PlaceVnodes(nodeId);
      ring := SortTokens(ring);
      assert View() == Extend(p, r, nodeId, addr);
    }

    method PlaceVnodes(nodeId: string)
      modifies this`ring, this`vnodeToNode
      ensures ring == old(ring) + VnodeTokens(P(), nodeId, vnodes)
      ensures vnodeToNode == Claim(P(), nodeId, vnodes, old(vnodeToNode))
    {
      for i := 0 to vnodes
        invariant ring == old(ring) + VnodeTokens(P(), nodeId, i)
        invariant vnodeToNode == Claim(P(), nodeId, i, old(vnodeToNode))
      {
        var token := VnodeToken(Params(digest, vnodes), nodeId, i);
        PlacedNext(P(), old(ring), nodeId, i);
        ring := ring + [token];
        vnodeToNode := vnodeToNode[token := nodeId];
      }
    }

    method RemoveNode(nodeId: string)
      requires Valid()
      modifies this
      ensures Valid()
      ensures View() == Remove(old(View()), nodeId)
    {
      InternalRemoveNode(nodeId);
    }

    method InternalRemoveNode(nodeId: string)
      requires Valid()
      modifies this
      ensures Valid()
      ensures View() == Remove(old(View()), nodeId)
    {
      if nodeId !in nodes {
        return;
      }
      RemoveKeepsInv(P(), View(), nodeId);
      // The capacity handed to the allocator; a negative one would abort the program.
      var capacity: nat := RingCapacity(nodeId);
      nodes := nodes - {nodeId};
      nodeAddresses := nodeAddresses - {nodeId};
      ring := KeepOthers(nodeId);
    }

    method KeepOthers(nodeId: string) returns (newRing: seq<Token>)
      modifies this`vnodeToNode
      ensures (newRing, vnodeToNode) == Sweep(ring, old(vnodeToNode), nodeId)
    {
      newRing := [];
      for i := 0 to |ring|
        invariant (newRing, vnodeToNode) == Sweep(ring[..i], old(vnodeToNode), nodeId)
      {
        assert ring[..i + 1][..i] == ring[..i];
        if OwnerOf(vnodeToNode, ring[i]) == nodeId {
          vnodeToNode := vnodeToNode - {ring[i]};
        } else {
          newRing := newRing + [ring[i]];
        }
      }
      assert ring[..|ring|] == ring;
    }

    /** `len(ring) - vnodes` is never negative when a member is removed. */
    function RingCapacity(nodeId: string): (n: nat)
      reads this
      requires Valid() && nodeId in nodes
      ensures n == |ring| - vnodes
    {
      CapacityIsNatural(P(), View(), nodeId);
      |ring| - vnodes
    }

    method Search(k: Token) returns (idx: nat)
      requires Sorted(ring)
      ensures idx == LowerBound(ring, k)
    {
      var lo, hi := 0, |ring|;
      while lo < hi
        invariant 0 <= lo <= hi <= |ring|
        invariant forall j :: 0 <= j < lo ==> ring[j] < k
        invariant forall j :: hi <= j < |ring| ==> ring[j] >= k
      {
        var mid := (lo + hi) / 2;
        if ring[mid] >= k {
          hi := mid;
        } else {
          lo := mid + 1;
        }
      }
      idx := lo;
      LowerBoundUnique(ring, k, idx);
    }

    method GetPrimaryNode(key: string) returns (r: Lookup<(NodeTarget, Token)>)
      requires Valid()
      ensures ring == [] ==> r == NoNodesInRing
      ensures ring != [] ==>
        r == Found((Target(View(), Owners(vnodeToNode, Rotated(ring, HashOf(Params(digest, vnodes), key)))[0]),
                    HashOf(Params(digest, vnodes), key)))
    {
      if |ring| == 0 {
        return NoNodesInRing;
      }
      var keyHash := HashOf(Params(digest, vnodes), key);
      var idx := Search(keyHash);
      if idx == |ring| {
        idx := 0;
      }
      var nodeId := OwnerOf(vnodeToNode, ring[idx]);
      r := Found((NodeTarget(nodeId, AddrOf(nodeAddresses, nodeId)), keyHash));
    }

    method GetNodes(key: string, count: nat) returns (r: Lookup<seq<NodeTarget>>)
      requires Valid()
      ensures r == NodesFor(P(), View(), key, count)
    {
      if |ring| == 0 {
        return NoNodesInRing;
      }
      var keyHash := HashOf(Params(digest, vnodes), key);
      var idx := Search(keyHash);
      if idx == |ring| {
        idx := 0;
      }
      var uniqueNodes := Walk(idx, count, Rotated(ring, keyHash));
      r := Found(uniqueNodes);
    }

    /** The owner of the token that is `i` steps after `idx`, around the end of the array. */
    method OwnerAhead(idx: nat, i: nat, ghost rotated: seq<Token>) returns (nodeId: string)
      requires idx < |ring| == |rotated| && i < |ring|
      requires rotated[i] == ring[Wrap(idx + i, |ring|)]
      ensures nodeId == Owners(vnodeToNode, rotated)[i]
    {
      nodeId := OwnerOf(vnodeToNode, Around(ring, idx + i));
    }

    method Walk(idx: nat, count: nat, ghost rotated: seq<Token>) returns (uniqueNodes: seq<NodeTarget>)
      requires idx < |ring| == |rotated|
      requires forall i :: 0 <= i < |ring| ==> rotated[i] == ring[Wrap(idx + i, |ring|)]
      ensures uniqueNodes == Targets(View(), Take(FirstSeen(Owners(vnodeToNode, rotated)), count))
    {
      uniqueNodes := [];
      var seen: set<string> := {};
      ghost var walk := Owners(vnodeToNode, rotated);
      var i := 0;
      WalkStarts(View(), walk);
      while i < |ring| && |uniqueNodes| < count
        invariant 0 <= i <= |ring| && |uniqueNodes| <= count
        invariant WalkedTo(View(), walk, i, uniqueNodes, seen)
      {
        var nodeId := OwnerAhead(idx, i, rotated);
        WalkStep(View(), walk, i, uniqueNodes, seen);
        if nodeId !in seen {
          seen := seen + {nodeId};
          uniqueNodes := uniqueNodes + [NodeTarget(nodeId, AddrOf(nodeAddresses, nodeId))];
        }
        i := i + 1;
      }
      WalkEnds(View(), walk, i, uniqueNodes, seen, count);
    }
  }

  /** The walk has met the first `i` owners. */
  ghost predicate WalkedTo(r: RingState, walk: seq<string>, i: nat, found: seq<NodeTarget>, seen: set<string>)
    requires i <= |walk|
  {
    found == Targets(r, FirstSeen(walk[..i])) && forall x :: x in seen <==> x in FirstSeen(walk[..i])
  }

  lemma WalkStarts(r: RingState, walk: seq<string>)
    ensures WalkedTo(r, walk, 0, [], {})
  {
  }

  lemma WalkStep(r: RingState, walk: seq<string>, i: nat, found: seq<NodeTarget>, seen: set<string>)
    requires i < |walk| && WalkedTo(r, walk, i, found, seen)
    ensures walk[i] in seen ==> WalkedTo(r, walk, i + 1, found, seen)
    ensures walk[i] !in seen ==> WalkedTo(r, walk, i + 1, found + [Target(r, walk[i])], seen + {walk[i]})
  {
    assert walk[..i + 1][..i] == walk[..i];
    var met := FirstSeen(walk[..i]);
    assert Targets(r, met + [walk[i]]) == Targets(r, met) + [Target(r, walk[i])];
  }

  lemma WalkEnds(r: RingState, walk: seq<string>, i: nat, found: seq<NodeTarget>, seen: set<string>, count: nat)
    requires i <= |walk| && WalkedTo(r, walk, i, found, seen) && |found| <= count
    requires i == |walk| || |found| == count
    ensures found == Targets(r, Take(FirstSeen(walk), count))
  {
    FirstSeenPrefix(walk, i);
    if i == |walk| {
      assert walk[..i] == walk;
    }
  }

  lemma CapacityIsNatural(p: Params, r: RingState, id: string)
    requires Inv(p, r) && id in r.nodes
    ensures |r.tokens| >= p.vnodes
  {
  }

  /** Walking further only appends: an early stop sees a prefix of the full order. */
  lemma {:induction false} FirstSeenPrefix(s: seq<string>, n: nat)
    requires n <= |s|
    ensures FirstSeen(s[..n]) <= FirstSeen(s)
    decreases |s| - n
  {
    if n == |s| {
      assert s[..n] == s;
    } else {
      FirstSeenPrefix(s, n + 1);
      assert s[..n + 1][..n] == s[..n];
    }
  }
}
